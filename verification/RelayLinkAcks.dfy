/** The acknowledging half over the FIFO connection: whatever is cut on the way, every message sent in
    full since the last replay is acknowledged already, or its last frame, or an acknowledgement that
    covers it, is still on the way.  So a quiet connection has released everything. */
module RelayLinkAcks {
  import opened Wrappers
  import opened RelayFrames
  import opened RelayAssembler
  import opened RelayBatchQueue
  import opened RelayEndpoint
  import opened RelayEndpointSafety
  import opened RelayNetwork
  import opened RelayLink
  import opened RelayLinkSafety

  ghost predicate AckAhead(flight: seq<Payload>, k: nat) {
    exists p :: p in flight && p.Ack? && k <= p.messageSeq
  }

  ghost predicate FrameAhead(flight: seq<Payload>, n: int) {
    exists p :: p in flight && p.Data? && p.frame.seqNo == n
  }

  /** The acknowledgement waiting to be sent; one the transport has already taken is on the link. */
  ghost function Waiting(r: Station): nat {
    if r.e.pendingAck.None? || (r.taken && r.e.inCall.Some? && r.e.inCall.value.Ack?) then 0
    else r.e.pendingAck.value
  }

  /** One more than every physical number the transport took since the last replay. */
  ghost function Offered(s: Station): nat {
    if s.taken && s.e.inCall.Some? && s.e.inCall.value.Data? then NextSeq(s.e.out) + 1 else NextSeq(s.e.out)
  }

  /** Everything that has left the peer and not yet been processed. */
  ghost function Flight(peer: Station, self: Station): seq<Payload> {
    self.e.queued + peer.link
  }

  /** Message k of `s` is acknowledged, or will be once what is on the way has arrived. */
  ghost predicate Answered(s: Station, r: Station, k: nat) {
    || k <= s.e.out.lastAcked
    || AckAhead(Flight(r, s), k)
    || k <= Waiting(r) || k <= r.e.owed
    || (k <= |s.e.out.messages| && FrameAhead(Flight(s, r), FirstSeq(s.e.out.messages, k) - 1))
  }

  ghost predicate AckInv(s: Station, r: Station) {
    Both(s, r) && s.up ==> forall k: nat :: Below(s.e.out.messages, k, Offered(s)) ==> Answered(s, r, k)
  }

  // ---------- numbers ----------

  lemma OfferedBound(cfg: Config, s: Station)
    requires Inv(cfg, s.e) && s.e.status == Live
    ensures Offered(s) <= FirstSeq(s.e.out.messages, |s.e.out.messages|)
  {
    var o := s.e.out;
    UnsentAtCursor(o);
    if HasUnsent(o) {
      var m := o.lastAcked + o.cursor;
      NextFramePlaced(cfg.crc, o);
      FirstSeqMonotone(o.messages, m, |o.messages|);
    }
  }

  lemma BelowBefore(ms: seq<Message>, k: nat, l: nat)
    requires l <= |ms| && Below(ms, k, FirstSeq(ms, l))
    ensures k <= l
  {
    if l < k { FirstSeqMonotone(ms, l, k); }
  }

  // ---------- the acting side as the sender ----------

  /** Steps that keep the sending half, the call and what is on the way to it, and add to the link. */
  lemma SenderKeeps(s: Station, r: Station, s': Station)
    requires AckInv(s, r) && (Both(s', r) ==> s.e.status == Live) && s'.up == s.up
    requires s'.e.out == s.e.out && Offered(s') <= Offered(s) && s'.e.queued == s.e.queued && s'.link == s.link
    ensures AckInv(s', r)
  {
    if Both(s', r) && s'.up {
      forall k: nat | Below(s'.e.out.messages, k, Offered(s'))
        ensures Answered(s', r, k)
      {
        assert Below(s.e.out.messages, k, Offered(s));
        assert Answered(s, r, k);
      }
    }
  }

  lemma SenderReserved(cfg: Config, s: Station, r: Station, m: Message, outerBytes: nat)
    requires AckInv(s, r) && Inv(cfg, s.e) && Enabled(cfg, s.e, Reserve(m, outerBytes))
    ensures AckInv(s.(e := Apply(cfg, s.e, Reserve(m, outerBytes))), r)
  {
    var s' := s.(e := Apply(cfg, s.e, Reserve(m, outerBytes)));
    var ms, ms' := s.e.out.messages, s'.e.out.messages;
    ReserveNextSeq(cfg.crc, s.e.out, m, outerBytes);
    OfferedBound(cfg, s);
    FirstSeqAppend(ms, m, |ms|);
    if Both(s', r) && s'.up {
      forall k: nat | Below(ms', k, Offered(s'))
        ensures Answered(s', r, k)
      {
        BelowBefore(ms', k, |ms|);
        FirstSeqAppend(ms, m, k);
        assert Below(ms, k, Offered(s));
        assert Answered(s, r, k);
      }
    }
  }

  lemma SenderEmitted(cfg: Config, s: Station, r: Station, take: bool)
    requires AckInv(s, r) && Inv(cfg, s.e) && Enabled(cfg, s.e, Emit) && (take ==> s.up)
    ensures var p := NextPayload(s.e);
            AckInv(Station(Apply(cfg, s.e, Emit), if take then s.link + [p] else s.link, s.up, take), r)
  {
    var p := NextPayload(s.e);
    var s' := Station(Apply(cfg, s.e, Emit), if take then s.link + [p] else s.link, s.up, take);
    if Both(s', r) && s'.up {
      forall k: nat | Below(s.e.out.messages, k, Offered(s'))
        ensures Answered(s', r, k)
      {
        if Below(s.e.out.messages, k, Offered(s)) {
          assert Answered(s, r, k);
          AheadGrows(s, r, s', k);
        } else {
          assert p in Flight(s', r);
        }
      }
    }
  }

  lemma AheadGrows(s: Station, r: Station, s': Station, k: nat)
    requires Answered(s, r, k) && s'.e.out == s.e.out && s'.e.queued == s.e.queued && s.link <= s'.link
    ensures Answered(s', r, k)
  {
    assert forall p <- Flight(s, r) :: p in Flight(s', r);
  }

  lemma SenderReturned(cfg: Config, s: Station, r: Station)
    requires AckInv(s, r) && Inv(cfg, s.e) && Enabled(cfg, s.e, Return(s.taken))
    ensures AckInv(s.(e := Apply(cfg, s.e, Return(s.taken))), r)
  {
    var s' := s.(e := Apply(cfg, s.e, Return(s.taken)));
    if s.taken && s.e.inCall.value.Data? { AcceptedNextSeq(cfg.crc, s.e.out, NextFrame(s.e.out)); }
    assert Offered(s') == Offered(s);
    if Both(s', r) && s'.up {
      forall k: nat | Below(s'.e.out.messages, k, Offered(s'))
        ensures Answered(s', r, k)
      {
        assert Below(s.e.out.messages, k, Offered(s));
        assert Answered(s, r, k);
      }
    }
  }

  lemma SenderReplayed(cfg: Config, s: Station, r: Station)
    requires Inv(cfg, s.e) && Enabled(cfg, s.e, Replay)
    ensures AckInv(s.(e := Apply(cfg, s.e, Replay), up := true), r)
  {
    var o := s.e.out;
    RewindOutbound(cfg.crc, o);
    forall k: nat | Below(o.messages, k, FirstSeq(o.messages, o.lastAcked))
      ensures k <= o.lastAcked
    {
      BelowBefore(o.messages, k, o.lastAcked);
    }
  }

  /** Taking an acknowledgement off the way to the sender. */
  lemma SenderTakesAck(cfg: Config, s: Station, r: Station, a: nat, queued: seq<Payload>, link: seq<Payload>)
    requires AckInv(s, r) && Inv(cfg, s.e) && s.e.status == Live && s.e.inCall.None?
    requires Flight(r, s) == [Ack(a)] + (queued + link) && a <= s.e.out.highestFullySent
    ensures AckInv(s.(e := ProcessAck(cfg, s.e.(queued := queued), a)), r.(link := link))
  {
    var s' := s.(e := ProcessAck(cfg, s.e.(queued := queued), a));
    var r' := r.(link := link);
    if a > s.e.out.lastAcked { AckMoves(cfg, s.e.(queued := queued), a); }
    if Both(s', r') && s'.up {
      forall k: nat | Below(s'.e.out.messages, k, Offered(s'))
        ensures Answered(s', r', k)
      {
        AckLeaves(cfg, s, r, s', r', a, k);
      }
    }
  }

  lemma AckLeaves(cfg: Config, s: Station, r: Station, s': Station, r': Station, a: nat, k: nat)
    requires AckInv(s, r) && Both(s, r) && s.up && s.e.inCall.None? && s'.e.inCall.None?
    requires Flight(r, s) == [Ack(a)] + Flight(r', s') && Flight(s', r') == Flight(s, r)
    requires Waiting(r') == Waiting(r) && r'.e.owed == r.e.owed
    requires s'.e.out.messages == s.e.out.messages && a <= |s.e.out.messages|
    requires s'.e.out.lastAcked == Max(s.e.out.lastAcked, a)
    requires NextSeq(s'.e.out) <= Max(NextSeq(s.e.out), FirstSeq(s.e.out.messages, a))
    requires Below(s.e.out.messages, k, Offered(s'))
    ensures Answered(s', r', k)
  {
    if Below(s.e.out.messages, k, Offered(s)) {
      assert Answered(s, r, k);
      if k > a && AckAhead(Flight(r, s), k) {
        var p :| p in Flight(r, s) && p.Ack? && k <= p.messageSeq;
        assert p in Flight(r', s');
      }
    } else {
      BelowBefore(s.e.out.messages, k, a);
    }
  }

  // ---------- the acting side as the receiver ----------

  /** Steps of the receiver that only move what it has to say closer to the sender. */
  lemma ReceiverKeeps(s: Station, r: Station, r': Station)
    requires AckInv(s, r) && (r'.e.status == Live ==> r.e.status == Live) && r'.e.queued == r.e.queued
    requires r.link <= r'.link
    requires forall k: nat :: 0 < k && (k <= Waiting(r) || k <= r.e.owed) ==>
               k <= Waiting(r') || k <= r'.e.owed || AckAhead(r'.link, k)
    ensures AckInv(s, r')
  {
    if Both(s, r') && s.up {
      forall k: nat | Below(s.e.out.messages, k, Offered(s))
        ensures Answered(s, r', k)
      {
        assert Answered(s, r, k);
        assert forall p <- Flight(r, s) :: p in Flight(r', s);
        assert forall p <- r'.link :: p in Flight(r', s);
        if AckAhead(r'.link, k) { assert AckAhead(Flight(r', s), k); }
      }
    }
  }

  lemma ReceiverEmitted(cfg: Config, s: Station, r: Station, take: bool)
    requires AckInv(s, r) && Inv(cfg, r.e) && Enabled(cfg, r.e, Emit)
    ensures var p := NextPayload(r.e);
            AckInv(s, Station(Apply(cfg, r.e, Emit), if take then r.link + [p] else r.link, r.up, take))
  {
    var p := NextPayload(r.e);
    var r' := Station(Apply(cfg, r.e, Emit), if take then r.link + [p] else r.link, r.up, take);
    if take && p.Ack? { assert p in r'.link; }
    ReceiverKeeps(s, r, r');
  }

  /** Until message k is complete its last frame does not lie below the expected number. */
  lemma BeforeLastFrame(crc: Crc, ms: seq<Message>, a: Assembler, k: nat)
    requires Synced(crc, ms, a) && a.lastCompleted < k <= |ms|
    ensures a.expectedSeq < FirstSeq(ms, k)
  {
    if a.lastCompleted + 1 < k { FirstSeqMonotone(ms, a.lastCompleted + 1, k); }
  }

  /** The last frame of message k calls for an acknowledgement that covers it. */
  lemma LastFrameOwes(crc: Crc, ms: seq<Message>, a: Assembler, f: Frame, k: nat, owed: nat)
    requires Synced(crc, ms, a) && (forall m <- ms :: WithinLimits(m)) && Genuine(crc, ms, f)
    requires 0 < k <= |ms| && f.seqNo == FirstSeq(ms, k) - 1 <= a.expectedSeq
    ensures k <= Owing(owed, Accept(crc, a, f).1)
  {
    hide Synced, Accept, WithinLimits, Flatten;
    var m: nat, i: nat :| InTable(ms, m, i) && f == FrameAt(crc, ms, m, i);
    SeqIdentifiesFrame(ms, m, i, k - 1, |ms[k - 1]| - 1);
    AcceptGenuine(crc, ms, a, m, i);
    if a.lastCompleted < k { BeforeLastFrame(crc, ms, a, k); }
  }

  /** What is owed only grows by taking a frame. */
  lemma OwingGrows(crc: Crc, a: Assembler, f: Frame, owed: nat)
    requires Counting(a) && owed <= a.lastCompleted
    ensures var (a', event) := Accept(crc, a, f); !event.Fault? ==> owed <= Owing(owed, event) <= a'.lastCompleted
  {
    AcceptCounts(crc, a, f);
  }

  /** Taking a frame off the way to the receiver. */
  lemma ReceiverTakesFrame(cfg: Config, s: Station, r: Station, f: Frame, queued: seq<Payload>, link: seq<Payload>)
    requires AckInv(s, r) && Inv(cfg, r.e) && r.e.status == Live && r.e.inCall.None?
    requires Synced(cfg.crc, s.e.out.messages, r.e.assembler) && (forall m <- s.e.out.messages :: WithinLimits(m))
    requires Genuine(cfg.crc, s.e.out.messages, f) && f.seqNo <= r.e.assembler.expectedSeq
    requires Flight(s, r) == [Data(f)] + (queued + link)
    ensures AckInv(s.(link := link), r.(e := ProcessInbound(cfg, r.e.(queued := queued), Data(f))))
  {
    var r' := r.(e := ProcessInbound(cfg, r.e.(queued := queued), Data(f)));
    var s' := s.(link := link);
    var (a', event) := Accept(cfg.crc, r.e.assembler, f);
    AcceptTakes(cfg.crc, s.e.out.messages, r.e.assembler, f);
    TakenFrame(cfg, r.e.(queued := queued), f, a', event);
    OwingGrows(cfg.crc, r.e.assembler, f, r.e.owed);
    if Both(s', r') && s'.up {
      forall k: nat | Below(s.e.out.messages, k, Offered(s'))
        ensures Answered(s', r', k)
      {
        assert Answered(s, r, k);
        if 0 < k && f.seqNo == FirstSeq(s.e.out.messages, k) - 1 {
          LastFrameOwes(cfg.crc, s.e.out.messages, r.e.assembler, f, k, r.e.owed);
        } else {
          FrameLeaves(s, r, s', r', f, k);
        }
      }
    }
  }

  lemma FrameLeaves(s: Station, r: Station, s': Station, r': Station, f: Frame, k: nat)
    requires Answered(s, r, k) && s'.e == s.e && r'.link == r.link
    requires Waiting(r') == Waiting(r) && r.e.owed <= r'.e.owed
    requires Flight(s, r) == [Data(f)] + Flight(s', r')
    requires k == 0 || (k <= |s.e.out.messages| && f.seqNo != FirstSeq(s.e.out.messages, k) - 1)
    ensures Answered(s', r', k)
  {
    if k > 0 {
      assert forall p <- Flight(s, r) :: p == Data(f) || p in Flight(s', r');
    }
  }

  /** An acknowledgement off the way to the receiver's own sending half leaves the frames there. */
  lemma ReceiverPassesAck(s: Station, r: Station, a: nat, e': Endpoint, link: seq<Payload>)
    requires AckInv(s, r) && Flight(s, r) == [Ack(a)] + (e'.queued + link)
    requires e'.pendingAck == r.e.pendingAck && e'.owed == r.e.owed && e'.inCall == r.e.inCall
    requires e'.status == r.e.status
    ensures AckInv(s.(link := link), r.(e := e'))
  {
    var s', r' := s.(link := link), r.(e := e');
    if Both(s', r') && s'.up {
      forall k: nat | Below(s.e.out.messages, k, Offered(s'))
        ensures Answered(s', r', k)
      {
        assert Answered(s, r, k);
        assert forall p <- Flight(s, r) :: p == Ack(a) || p in Flight(s', r');
      }
    }
  }

  /** A frame off the way leaves what comes to the taking side's own sending half. */
  lemma SenderPassesFrame(s: Station, r: Station, f: Frame, e': Endpoint, link: seq<Payload>)
    requires AckInv(s, r) && Flight(r, s) == [Data(f)] + (e'.queued + link)
    requires e'.out == s.e.out && e'.inCall == s.e.inCall && e'.status == s.e.status
    ensures AckInv(s.(e := e'), r.(link := link))
  {
    var s', r' := s.(e := e'), r.(link := link);
    if Both(s', r') && s'.up {
      forall k: nat | Below(s.e.out.messages, k, Offered(s'))
        ensures Answered(s', r', k)
      {
        assert Answered(s, r, k);
        assert forall p <- Flight(r, s) :: p == Data(f) || p in Flight(r', s');
      }
    }
  }

  // ---------- one act of a station ----------

  ghost predicate Acks(self: Station, peer: Station) {
    AckInv(self, peer) && AckInv(peer, self)
  }

  /** Processing the oldest payload that has reached `self`. */
  lemma ProcessKeepsAcks(cfg: Config, self: Station, peer: Station, p: Payload, queued: seq<Payload>,
                         link: seq<Payload>)
    requires Sees(cfg, self, peer) && Acks(self, peer) && self.e.status == Live && self.e.inCall.None?
    requires Flight(peer, self) == [p] + (queued + link)
    ensures Acks(self.(e := ProcessInbound(cfg, self.e.(queued := queued), p)), peer.(link := link))
  {
    hide Sees, AckInv, Accept, ValidFrame;
    assert p == Flight(peer, self)[0];
    FlightIsGenuine(cfg, self, peer, p);
    if p.Data? {
      FrameKeepsAcks(cfg, self, peer, p.frame, queued, link);
    } else {
      AckKeepsAcks(cfg, self, peer, p.messageSeq, queued, link);
    }
  }

  lemma FrameKeepsAcks(cfg: Config, self: Station, peer: Station, f: Frame, queued: seq<Payload>, link: seq<Payload>)
    requires Sees(cfg, self, peer) && Acks(self, peer) && self.e.status == Live && self.e.inCall.None?
    requires Flight(peer, self) == [Data(f)] + (queued + link) && Genuine(cfg.crc, peer.e.out.messages, f)
    ensures Acks(self.(e := ProcessInbound(cfg, self.e.(queued := queued), Data(f))), peer.(link := link))
  {
    var waiting := self.e.(queued := queued);
    var (a', event) := Accept(cfg.crc, self.e.assembler, f);
    AcceptTakes(cfg.crc, peer.e.out.messages, self.e.assembler, f);
    TakenFrame(cfg, waiting, f, a', event);
    ReceiverTakesFrame(cfg, peer, self, f, queued, link);
    SenderPassesFrame(self, peer, f, ProcessInbound(cfg, waiting, Data(f)), link);
  }

  lemma AckKeepsAcks(cfg: Config, self: Station, peer: Station, a: nat, queued: seq<Payload>, link: seq<Payload>)
    requires Sees(cfg, self, peer) && Acks(self, peer) && self.e.status == Live && self.e.inCall.None?
    requires Flight(peer, self) == [Ack(a)] + (queued + link) && 1 <= a <= |peer.e.delivered|
    ensures Acks(self.(e := ProcessInbound(cfg, self.e.(queued := queued), Ack(a))), peer.(link := link))
  {
    var waiting := self.e.(queued := queued);
    AckNotFuture(cfg, self, peer, a);
    SenderTakesAck(cfg, self, peer, a, queued, link);
    ReceiverPassesAck(peer, self, a, ProcessAck(cfg, waiting, a), link);
  }

  lemma LocalKeepsAcks(cfg: Config, self: Station, peer: Station, s: Step)
    requires ValidConfig(cfg) && Sees(cfg, self, peer) && Acks(self, peer) && IsLocal(s) && Enabled(cfg, self.e, s)
    ensures Acks(self.(e := Apply(cfg, self.e, s)), peer)
  {
    hide AckInv, Inv, Fifo, Direction, Histories, Accept, ValidFrame;
    var self' := self.(e := Apply(cfg, self.e, s));
    match s
    case Reserve(m, outerBytes) =>
      SenderReserved(cfg, self, peer, m, outerBytes);
      ReceiverKeeps(peer, self, self');
    case QueueAck(_) =>
      SenderKeeps(self, peer, self');
      ReceiverKeeps(peer, self, self');
    case Drain =>
      assert Flight(peer, self) == [self.e.queued[0]] + (self.e.queued[1..] + peer.link);
      ProcessKeepsAcks(cfg, self, peer, self.e.queued[0], self.e.queued[1..], peer.link);
      assert peer.(link := peer.link) == peer;
    case Degrade => StoppedAcks(self', peer);
    case Dispose => StoppedAcks(self', peer);
  }

  lemma StoppedAcks(self: Station, peer: Station)
    requires self.e.status != Live
    ensures Acks(self, peer)
  {
  }

  lemma DeliverKeepsAcks(cfg: Config, self: Station, peer: Station)
    requires Sees(cfg, self, peer) && Acks(self, peer) && Acted(cfg, self, peer.link, Deliver).Some?
    ensures var (self', link) := Acted(cfg, self, peer.link, Deliver).value; Acks(self', peer.(link := link))
  {
    hide AckInv, Inv, Fifo, Direction, Histories, Accept, ValidFrame;
    var (self', link) := Acted(cfg, self, peer.link, Deliver).value;
    if self.e.status == Live {
      if self.e.inCall.Some? {
        assert Flight(peer.(link := link), self') == Flight(peer, self);
        QueuedKeepsAcks(self, peer, self', link);
      } else {
        assert Flight(peer, self) == [peer.link[0]] + ([] + link);
        ProcessKeepsAcks(cfg, self, peer, peer.link[0], [], link);
        assert self.e.(queued := []) == self.e;
      }
    } else {
      StoppedAcks(self, peer.(link := link));
    }
  }

  /** A payload that moves from the link to the inbound queue is still on the way. */
  lemma QueuedKeepsAcks(self: Station, peer: Station, self': Station, link: seq<Payload>)
    requires Acks(self, peer) && Flight(peer.(link := link), self') == Flight(peer, self)
    requires self'.e == self.e.(queued := self'.e.queued) && self' == self.(e := self'.e)
    ensures Acks(self', peer.(link := link))
  {
    var peer' := peer.(link := link);
    assert forall k: nat :: Answered(self, peer, k) ==> Answered(self', peer', k);
    assert forall k: nat :: Answered(peer, self, k) ==> Answered(peer', self', k);
  }

  lemma ActKeepsAcks(cfg: Config, peerCfg: Config, self: Station, peer: Station, act: Act)
    requires ValidConfigs(cfg, peerCfg) && Sees(cfg, self, peer) && Acks(self, peer)
    requires Acted(cfg, self, peer.link, act).Some?
    ensures var (self', link) := Acted(cfg, self, peer.link, act).value; Acks(self', peer.(link := link))
  {
    hide AckInv, Inv, Fifo, Direction, Histories, ProcessInbound;
    var (self', link) := Acted(cfg, self, peer.link, act).value;
    assert peer.(link := peer.link) == peer;
    match act
    case Local(s) => LocalKeepsAcks(cfg, self, peer, s);
    case Send(take) =>
      SenderEmitted(cfg, self, peer, take);
      ReceiverEmitted(cfg, peer, self, take);
    case Back =>
      SenderReturned(cfg, self, peer);
      ReceiverKeeps(peer, self, self');
    case Deliver => DeliverKeepsAcks(cfg, self, peer);
    case Reconnect =>
      SenderReplayed(cfg, self, peer);
      ReceiverKeeps(peer, self, self');
  }

  // ---------- whole histories ----------

  lemma HappenedKeepsAcks(ca: Config, cb: Config, w: World, action: Action)
    requires ValidConfigs(ca, cb) && WorldInv(ca, cb, w) && Acks(w.a, w.b) && Happened(ca, cb, w, action).Some?
    ensures var w' := Happened(ca, cb, w, action).value; Acks(w'.a, w'.b)
  {
    hide Inv, Fifo, Direction, Apply, Answered;
    WorldSees(ca, cb, w);
    match action
    case AtA(act) => ActKeepsAcks(ca, cb, w.a, w.b, act);
    case AtB(act) => ActKeepsAcks(cb, ca, w.b, w.a, act);
    case Cut(_, _) =>
  }

  lemma StartAcks(s: Station, r: Station)
    requires s.e == FRESH
    ensures AckInv(s, r)
  {
  }

  lemma {:induction false} HistoryAcks(ca: Config, cb: Config, actions: seq<Action>)
    requires ValidConfigs(ca, cb) && History(ca, cb, actions).Some?
    ensures var w := History(ca, cb, actions).value; WorldInv(ca, cb, w) && Acks(w.a, w.b)
  {
    HistoryInv(ca, cb, actions);
    if actions == [] {
      StartAcks(START.a, START.b);
      StartAcks(START.b, START.a);
    } else {
      HistoryAcks(ca, cb, actions[..|actions| - 1]);
      HappenedKeepsAcks(ca, cb, History(ca, cb, actions[..|actions| - 1]).value, actions[|actions| - 1]);
    }
  }

  /** Nothing to send, no acknowledgement pending or owed, nothing queued and nothing on the link. */
  ghost predicate AtRest(s: Station) {
    !CanSend(s.e) && s.e.owed == 0 && s.e.queued == [] && s.link == []
  }

  /** Everything the sender reserved has been delivered, acknowledged and released. */
  ghost predicate Released(s: Station, r: Station) {
    && r.e.delivered == BytesOf(s.e.out.messages)
    && s.e.out.lastAcked == |s.e.out.messages|
    && s.e.out.batches == [] && s.e.ledger.unackedBytes == 0 && !s.e.ledger.saturated
  }

  /** Two live, connected ends at rest: on both sides everything was delivered and acknowledged, and the
      replay buffers are empty, whatever was cut on the way. */
  lemma RestMeansAcknowledged(ca: Config, cb: Config, actions: seq<Action>)
    requires ValidConfigs(ca, cb) && History(ca, cb, actions).Some?
    ensures var World(a, b) := History(ca, cb, actions).value;
            Both(a, b) && a.up && b.up && AtRest(a) && AtRest(b) ==> Released(a, b) && Released(b, a)
  {
    HistoryAcks(ca, cb, actions);
    var World(a, b) := History(ca, cb, actions).value;
    if Both(a, b) && a.up && b.up && AtRest(a) && AtRest(b) {
      RestReleases(ca, a, b);
      RestReleases(cb, b, a);
    }
  }

  lemma RestReleases(cfg: Config, s: Station, r: Station)
    requires Inv(cfg, s.e) && Direction(cfg.crc, s.e, r.e) && Fifo(s, r) && AckInv(s, r) && Both(s, r) && s.up
    requires r.e.assembler.lastCompleted == |r.e.delivered| && AtRest(s) && AtRest(r)
    ensures Released(s, r)
  {
    assert r.e.queued + s.link == [];
    Quiet(cfg, s, r);
    assert Below(s.e.out.messages, |s.e.out.messages|, Offered(s));
    assert Answered(s, r, |s.e.out.messages|);
  }
}
