/** The relay over a FIFO connection that may be cut, losing any suffix of what is in flight, and
    that each side answers with `replayUnacknowledged` before anything else it sends gets through.

    On top of exactly-once delivery: no protocol step ever faults (no gap, no conflicting duplicate,
    no acknowledgement from the future), and once everything in flight has arrived the receiver has
    been handed everything that was reserved. */
module RelayLink {
  import opened Wrappers
  import opened RelayFrames
  import opened RelayAssembler
  import opened RelayBatchQueue
  import opened RelayEndpoint
  import opened RelayEndpointSafety
  import opened RelayNetwork

  /** An endpoint, what it has in flight, whether its transport takes frames (a replay came after the
      last cut), and whether the sendFrame call under way was taken. */
  datatype Station = Station(e: Endpoint, link: seq<Payload>, up: bool, taken: bool)

  datatype Act =
    | Local(step: Step)        // Reserve, QueueAck, Drain, Degrade, Dispose
    | Send(take: bool)         // call sendFrame
    | Back                     // sendFrame returns whether the frame was taken
    | Deliver                  // the oldest payload in flight arrives
    | Reconnect                // replayUnacknowledged

  datatype World = World(a: Station, b: Station)

  datatype Action = AtA(act: Act) | AtB(act: Act) | Cut(keepA: nat, keepB: nat)

  predicate IsLocal(s: Step) {
    s.Reserve? || s.QueueAck? || s.Drain? || s.Degrade? || s.Dispose?
  }

  /** A payload that arrives while sendFrame runs is queued; otherwise nothing may still be queued. */
  predicate InOrder(e: Endpoint) {
    e.inCall.None? ==> e.queued == []
  }

  function Acted(cfg: Config, self: Station, inbound: seq<Payload>, act: Act): Option<(Station, seq<Payload>)> {
    match act
    case Local(s) =>
      if IsLocal(s) && Enabled(cfg, self.e, s) then Some((self.(e := Apply(cfg, self.e, s)), inbound)) else None
    case Send(take) =>
      if Enabled(cfg, self.e, Emit) && (take ==> self.up) then
        Some((Station(Apply(cfg, self.e, Emit),
                      if take then self.link + [NextPayload(self.e)] else self.link, self.up, take), inbound))
      else None
    case Back =>
      if Enabled(cfg, self.e, Return(self.taken)) then
        Some((self.(e := Apply(cfg, self.e, Return(self.taken))), inbound))
      else None
    case Deliver =>
      if inbound == [] then None
      else if self.e.status != Live then Some((self, inbound[1..]))
      else if InOrder(self.e) then Some((self.(e := Apply(cfg, self.e, Receive(inbound[0]))), inbound[1..]))
      else None
    case Reconnect =>
      if Enabled(cfg, self.e, Replay) then Some((self.(e := Apply(cfg, self.e, Replay), up := true), inbound)) else None
  }

  function Happened(ca: Config, cb: Config, w: World, action: Action): Option<World> {
    match action
    case AtA(act) =>
      (match Acted(ca, w.a, w.b.link, act)
       case None => None
       case Some((a, link)) => Some(World(a, w.b.(link := link))))
    case AtB(act) =>
      (match Acted(cb, w.b, w.a.link, act)
       case None => None
       case Some((b, link)) => Some(World(w.a.(link := link), b)))
    case Cut(i, j) =>
      if i <= |w.a.link| && j <= |w.b.link| then
        Some(World(w.a.(link := w.a.link[..i], up := false), w.b.(link := w.b.link[..j], up := false)))
      else None
  }

  const START := World(Station(FRESH, [], true, false), Station(FRESH, [], true, false))

  function History(ca: Config, cb: Config, actions: seq<Action>): Option<World> {
    if actions == [] then Some(START)
    else
      var before := History(ca, cb, actions[..|actions| - 1]);
      if before.None? then None else Happened(ca, cb, before.value, actions[|actions| - 1])
  }

  // ---------- what is in flight ----------

  /** The number expected after everything in flight has been taken. */
  ghost function Reach(expected: nat, flight: seq<Payload>): nat
    decreases |flight|
  {
    if flight == [] then expected
    else Reach(if flight[0].Data? then Max(expected, flight[0].frame.seqNo + 1) else expected, flight[1..])
  }

  /** No frame in flight lies beyond the number expected when its turn comes. */
  ghost predicate NoGap(expected: nat, flight: seq<Payload>)
    decreases |flight|
  {
    flight == [] ||
    (&& (flight[0].Data? ==> flight[0].frame.seqNo <= expected)
     && NoGap(if flight[0].Data? then Max(expected, flight[0].frame.seqNo + 1) else expected, flight[1..]))
  }

  lemma {:induction false} ReachAppend(expected: nat, flight: seq<Payload>, p: Payload)
    ensures Reach(expected, flight + [p])
         == if p.Data? then Max(Reach(expected, flight), p.frame.seqNo + 1) else Reach(expected, flight)
    ensures NoGap(expected, flight) && (p.Data? ==> p.frame.seqNo <= Reach(expected, flight))
            ==> NoGap(expected, flight + [p])
    decreases |flight|
  {
    if flight == [] {
      assert flight + [p] == [p];
      assert [p][1..] == [];
    } else {
      assert (flight + [p])[1..] == flight[1..] + [p];
      ReachAppend(if flight[0].Data? then Max(expected, flight[0].frame.seqNo + 1) else expected, flight[1..], p);
    }
  }

  lemma {:induction false} ReachPrefix(expected: nat, flight: seq<Payload>, k: nat)
    requires k <= |flight|
    ensures expected <= Reach(expected, flight[..k]) <= Reach(expected, flight)
    ensures NoGap(expected, flight) ==> NoGap(expected, flight[..k])
    decreases |flight|
  {
    if flight != [] {
      var next := if flight[0].Data? then Max(expected, flight[0].frame.seqNo + 1) else expected;
      if k == 0 {
        ReachPrefix(next, flight[1..], 0);
      } else {
        assert flight[..k][1..] == flight[1..][..k - 1];
        ReachPrefix(next, flight[1..], k - 1);
      }
    }
  }

  /** One more than every physical number the peer can have seen. */
  ghost function Ceiling(s: Station): nat {
    if s.taken && s.e.inCall.Some? && s.e.inCall.value.Data?
    then Max(s.e.out.sentThrough, s.e.inCall.value.frame.seqNo + 1) else s.e.out.sentThrough
  }

  ghost predicate Both(s: Station, r: Station) {
    s.e.status == Live && r.e.status == Live
  }

  /** The direction from `s` to `r`. */
  ghost predicate Fifo(s: Station, r: Station) {
    var flight := r.e.queued + s.link;
    var expected := r.e.assembler.expectedSeq;
    && (forall p <- s.link :: p in s.e.wire)
    && (r.e.status == Live ==> NoGap(expected, flight))
    && (Both(s, r) && s.up ==> NextSeq(s.e.out) <= Reach(expected, flight))
    && (Both(s, r) && s.up && s.taken && s.e.inCall.Some? && s.e.inCall.value.Data? ==>
          s.e.inCall.value.frame.seqNo < Reach(expected, flight))
    && (Both(s, r) ==> Reach(expected, flight) <= Ceiling(s))
    && |r.e.delivered| <= |s.e.out.messages|
    && (s.e.status == Live ==> FirstSeq(s.e.out.messages, |r.e.delivered|) <= Ceiling(s))
  }

  ghost predicate WorldInv(ca: Config, cb: Config, w: World) {
    PairInv(ca, cb, Pair(w.a.e, w.b.e)) && Fifo(w.a, w.b) && Fifo(w.b, w.a)
  }
}
