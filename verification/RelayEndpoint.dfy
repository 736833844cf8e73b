/** One end of the acknowledged relay as a state machine over its atomic steps.

    Every call into the outside (sendFrame, the listeners) may re-enter the endpoint, so a method of
    the protocol is a sequence of these steps, interleaved with the steps of whatever re-entered it.
    Fields marked as histories record what happened and never influence a step. */
module RelayEndpoint {
  import opened Wrappers
  import opened RelayFrames
  import opened RelayAssembler
  import opened RelayBatchQueue

  datatype Payload = Data(frame: Frame) | Ack(messageSeq: nat) | Malformed

  datatype Status = Live | Degraded | Disposed

  datatype Watermark = Saturated | Drained

  datatype Config = Config(highWater: nat, lowWater: nat, replayCap: nat, crc: Crc)

  ghost predicate ValidConfig(cfg: Config) {
    cfg.lowWater <= cfg.highWater
  }

  /** The sending half. */
  datatype Outgoing = Outgoing(
    batches: seq<Batch>, cursor: nat,
    nextPhysicalSeq: nat, nextMessageSeq: nat, highestFullySent: nat, lastAcked: nat,
    messages: seq<Message>,     // history: everything reserved, in order
    accepted: seq<nat>,         // history: physical numbers sendFrame accepted since the last replay
    sentThrough: nat)           // history: one more than the largest number ever accepted

  datatype Ledger = Ledger(unackedBytes: nat, saturated: bool,
                           watermarks: seq<Watermark>)  // history: saturated and drained events

  datatype Endpoint = Endpoint(
    out: Outgoing, ledger: Ledger,
    pendingAck: Option<nat>, inCall: Option<Payload>, queued: seq<Payload>,
    assembler: Assembler, status: Status,
    owed: nat,                  // history: the acknowledgement the last frame taken calls for, 0 once it is queued
    delivered: seq<Bytes>,      // history: everything handed to the message listener, in order
    wire: seq<Payload>)         // history: every payload ever handed to sendFrame

  const FRESH := Endpoint(Outgoing([], 0, 1, 1, 0, 0, [], [], 1), Ledger(0, false, []),
                          None, None, [], INITIAL, Live, 0, [], [])

  datatype Step =
    | Reserve(message: Message, outerBytes: nat)
    | Emit
    | Return(accepted: bool)
    | Receive(payload: Payload)
    | Drain
    | QueueAck(messageSeq: nat)
    | Replay
    | Degrade
    | Dispose

  // ---------- the steps ----------

  /** `inCall` stays: it then says whether the endpoint stopped while sendFrame ran. */
  function Stopped(e: Endpoint, status: Status): Endpoint {
    e.(status := status, out := e.out.(batches := [], cursor := 0), queued := [], pendingAck := None,
       owed := 0,
       ledger := e.ledger.(unackedBytes := 0, saturated := if status == Degraded then false else e.ledger.saturated))
  }

  function Appended(crc: Crc, o: Outgoing, m: Message, outerBytes: nat): Outgoing {
    var frames := EncodeFrames(crc, o.nextPhysicalSeq, o.nextMessageSeq, m);
    o.(batches := o.batches + [Batch(o.nextMessageSeq, frames, outerBytes, 0)],
       nextMessageSeq := o.nextMessageSeq + 1,
       nextPhysicalSeq := frames[|frames| - 1].seqNo + 1,
       messages := o.messages + [m])
  }

  function Charged(cfg: Config, l: Ledger, outerBytes: nat): Ledger {
    var bytes := l.unackedBytes + outerBytes;
    var crosses := !l.saturated && bytes > cfg.highWater;
    Ledger(bytes, l.saturated || crosses, if crosses then l.watermarks + [Saturated] else l.watermarks)
  }

  predicate HasUnsent(o: Outgoing) {
    o.cursor < |o.batches| && o.batches[o.cursor].nextFrameIndex < |o.batches[o.cursor].frames|
  }

  function NextFrame(o: Outgoing): Frame
    requires HasUnsent(o)
  {
    o.batches[o.cursor].frames[o.batches[o.cursor].nextFrameIndex]
  }

  predicate CanSend(e: Endpoint) {
    e.pendingAck.Some? || HasUnsent(e.out)
  }

  /** A pending acknowledgement goes before the next data frame. */
  function NextPayload(e: Endpoint): Payload
    requires CanSend(e)
  {
    if e.pendingAck.Some? then Ack(e.pendingAck.value) else Data(NextFrame(e.out))
  }

  function Max(a: nat, b: nat): nat { if a < b then b else a }

  function FrameAccepted(o: Outgoing, f: Frame): Outgoing
    requires HasUnsent(o)
  {
    var batch := o.batches[o.cursor];
    var sent := batch.(nextFrameIndex := batch.nextFrameIndex + 1);
    var last := sent.nextFrameIndex == |sent.frames|;
    o.(batches := o.batches[o.cursor := sent],
       highestFullySent := if last then Max(o.highestFullySent, batch.messageSeq) else o.highestFullySent,
       cursor := if last then o.cursor + 1 else o.cursor,
       accepted := o.accepted + [f.seqNo],
       sentThrough := Max(o.sentThrough, f.seqNo + 1))
  }

  function Returned(e: Endpoint, accepted: bool): Endpoint
    requires e.inCall.Some?
  {
    var back := e.(inCall := None);
    if !accepted then back
    else match e.inCall.value
      case Ack(a) => if e.pendingAck == Some(a) then back.(pendingAck := None) else back
      case Data(f) => if HasUnsent(e.out) then back.(out := FrameAccepted(e.out, f)) else back
      case Malformed => back
  }

  function Dropped(o: Outgoing, n: nat, ack: nat): Outgoing
    requires n <= |o.batches|
  {
    o.(batches := o.batches[n..], cursor := if o.cursor < n then 0 else o.cursor - n, lastAcked := ack)
  }

  function Released(o: Outgoing, ack: nat): Outgoing {
    Dropped(o, ReleaseCount(o.batches, ack), ack)
  }

  function Credited(cfg: Config, l: Ledger, releasedBytes: nat): Ledger {
    var bytes := if l.unackedBytes < releasedBytes then 0 else l.unackedBytes - releasedBytes;
    var drains := l.saturated && bytes <= cfg.lowWater;
    Ledger(bytes, l.saturated && !drains, if drains then l.watermarks + [Drained] else l.watermarks)
  }

  function ProcessAck(cfg: Config, e: Endpoint, ack: nat): Endpoint {
    if ack <= e.out.lastAcked then e
    else if ack > e.out.highestFullySent then Stopped(e, Degraded)
    else e.(out := Released(e.out, ack),
            ledger := Credited(cfg, e.ledger, SumBytes(e.out.batches[..ReleaseCount(e.out.batches, ack)])))
  }

  /** A completed message calls for its acknowledgement, a duplicate for that of the last completed one. */
  function Owing(owed: nat, event: Event): nat {
    match event
    case Duplicate(ack) => if ack.Some? then ack.value else owed
    case Complete(messageSeq, _) => messageSeq
    case _ => owed
  }

  function ProcessInbound(cfg: Config, e: Endpoint, p: Payload): Endpoint {
    match p
    case Malformed => Stopped(e, Degraded)
    case Ack(a) => if a == 0 then Stopped(e, Degraded) else ProcessAck(cfg, e, a)
    case Data(f) =>
      if !ValidFrame(f) then Stopped(e, Degraded)
      else
        var (assembler, event) := Accept(cfg.crc, e.assembler, f);
        match event
        case Fault(_) => Stopped(e, Degraded)
        case Incomplete => e.(assembler := assembler)
        case Duplicate(_) => e.(owed := Owing(e.owed, event))
        case Complete(_, bytes) =>
          e.(assembler := assembler, delivered := e.delivered + [bytes], owed := Owing(e.owed, event))
  }

  function Rewind(o: Outgoing): Outgoing {
    o.(batches := Rewound(o.batches), cursor := 0, accepted := [])
  }

  predicate Enabled(cfg: Config, e: Endpoint, s: Step) {
    e.status == Live &&
    match s
    case Reserve(m, outerBytes) =>
      && e.ledger.unackedBytes + outerBytes <= cfg.replayCap
      && |m| <= MAX_FRAGMENTS && |Flatten(m)| <= MAX_MESSAGE_BYTES
    case Emit => e.inCall.None? && CanSend(e)
    case Return(_) => e.inCall.Some?
    case Receive(_) => true
    case Drain => e.inCall.None? && e.queued != []
    case QueueAck(a) => e.inCall.None? && 1 <= a <= e.assembler.lastCompleted
    case Replay => e.inCall.None?
    case Degrade => true
    case Dispose => true
  }

  function Apply(cfg: Config, e: Endpoint, s: Step): Endpoint
    requires Enabled(cfg, e, s)
  {
    match s
    case Reserve(m, outerBytes) =>
      e.(out := Appended(cfg.crc, e.out, m, outerBytes), ledger := Charged(cfg, e.ledger, outerBytes))
    case Emit => e.(inCall := Some(NextPayload(e)), wire := e.wire + [NextPayload(e)])
    case Return(accepted) => Returned(e, accepted)
    case Receive(p) => if e.inCall.Some? then e.(queued := e.queued + [p]) else ProcessInbound(cfg, e, p)
    case Drain => ProcessInbound(cfg, e.(queued := e.queued[1..]), e.queued[0])
    case QueueAck(a) =>
      e.(pendingAck := if e.pendingAck.Some? && a <= e.pendingAck.value then e.pendingAck else Some(a),
         owed := if e.owed <= a then 0 else e.owed)
    case Replay => e.(out := Rewind(e.out))
    case Degrade => Stopped(e, Degraded)
    case Dispose => Stopped(e, Disposed)
  }

  // ---------- what every step keeps ----------

  ghost predicate BatchFor(crc: Crc, ms: seq<Message>, m: nat, b: Batch) {
    && m < |ms|
    && b.messageSeq == m + 1
    && b.frames == FramesOf(crc, ms, m)
    && b.nextFrameIndex <= |b.frames|
  }

  ghost predicate CarriesAt(crc: Crc, ms: seq<Message>, first: nat, batches: seq<Batch>, i: nat) {
    i < |batches| && BatchFor(crc, ms, first + i, batches[i])
  }

  /** The batches carry exactly the messages from index `first` on, in order. */
  ghost predicate Covers(crc: Crc, ms: seq<Message>, first: nat, batches: seq<Batch>) {
    first + |batches| == |ms| &&
    forall i: nat :: i < |batches| ==> CarriesAt(crc, ms, first, batches, i)
  }

  ghost predicate CursorAt(batches: seq<Batch>, cursor: nat, i: nat) {
    i < |batches| &&
    if i < cursor then batches[i].nextFrameIndex == |batches[i].frames|
    else if i == cursor then batches[i].nextFrameIndex < |batches[i].frames|
    else batches[i].nextFrameIndex == 0
  }

  /** Everything before the cursor is sent in full, nothing after it has been started. */
  ghost predicate CursorRule(batches: seq<Batch>, cursor: nat) {
    cursor <= |batches| &&
    forall i: nat :: i < |batches| ==> CursorAt(batches, cursor, i)
  }

  /** The replay buffer is exactly the unacknowledged messages. */
  ghost predicate Outbound(crc: Crc, o: Outgoing) {
    && o.nextMessageSeq == |o.messages| + 1
    && o.nextPhysicalSeq == FirstSeq(o.messages, |o.messages|)
    && o.lastAcked + o.cursor <= o.highestFullySent <= |o.messages|
    && Covers(crc, o.messages, o.lastAcked, o.batches)
    && CursorRule(o.batches, o.cursor)
  }

  ghost predicate Alternating(ws: seq<Watermark>) {
    forall i :: 0 <= i < |ws| ==> ws[i] == if i % 2 == 0 then Saturated else Drained
  }

  /** The byte counter is the size of the buffer, and the saturation flag its hysteresis. */
  ghost predicate Accounting(cfg: Config, batches: seq<Batch>, l: Ledger) {
    && l.unackedBytes == SumBytes(batches) <= cfg.replayCap
    && (!l.saturated ==> l.unackedBytes <= cfg.highWater)
    && (l.saturated ==> l.unackedBytes > cfg.lowWater)
    && Alternating(l.watermarks)
    && (l.saturated <==> |l.watermarks| % 2 == 1)
  }

  /** While sendFrame runs, what it was given is still what the endpoint would send next. */
  ghost predicate Calling(o: Outgoing, pendingAck: Option<nat>, inCall: Option<Payload>) {
    match inCall
    case None => true
    case Some(p) => if pendingAck.Some? then p == Ack(pendingAck.value) else HasUnsent(o) && p == Data(NextFrame(o))
  }

  ghost predicate Inbound(a: Assembler, deliveredCount: nat, pendingAck: Option<nat>, owed: nat) {
    && !a.faulted
    && a.lastCompleted == deliveredCount
    && a.expectedMessage == deliveredCount + 1
    && (a.active.Some? ==> a.active.value.messageSeq == deliveredCount + 1)
    && (pendingAck.Some? ==> 1 <= pendingAck.value <= deliveredCount)
    && owed <= deliveredCount
  }

  /** Physical number of the frame the cursor points at. */
  function NextSeq(o: Outgoing): nat {
    if HasUnsent(o) then NextFrame(o).seqNo else o.nextPhysicalSeq
  }

  /** Since the last replay: accepted numbers strictly increase and stay below the cursor, and each
      number below the cursor was accepted unless its message is acknowledged. */
  ghost predicate Epoch(ms: seq<Message>, lastAcked: nat, accepted: seq<nat>, next: nat) {
    && lastAcked <= |ms|
    && (forall i, j :: 0 <= i < j < |accepted| ==> accepted[i] < accepted[j])
    && (forall x <- accepted :: x < next)
    && (forall n :: FirstSeq(ms, lastAcked) <= n < next ==> n in accepted)
  }

  /** The first m messages lie below the physical number s. */
  ghost predicate Below(ms: seq<Message>, m: nat, s: nat) {
    m <= |ms| && FirstSeq(ms, m) <= s
  }

  /** A message all of whose frames lie below `sentThrough` counts as fully sent. */
  ghost predicate Sent(ms: seq<Message>, sentThrough: nat, highestFullySent: nat) {
    && sentThrough <= FirstSeq(ms, |ms|)
    && (forall m: nat :: Below(ms, m, sentThrough) ==> m <= highestFullySent)
  }

  ghost predicate OutInv(crc: Crc, o: Outgoing) {
    Outbound(crc, o) && Epoch(o.messages, o.lastAcked, o.accepted, NextSeq(o))
    && Sent(o.messages, o.sentThrough, o.highestFullySent)
  }

  ghost predicate GenuinePayload(crc: Crc, ms: seq<Message>, deliveredCount: nat, p: Payload) {
    match p
    case Data(f) => Genuine(crc, ms, f)
    case Ack(a) => 1 <= a <= deliveredCount
    case Malformed => false
  }

  /** Holds in every state, live or stopped. */
  ghost predicate Histories(crc: Crc, ms: seq<Message>, deliveredCount: nat, wire: seq<Payload>) {
    && (forall p <- wire :: GenuinePayload(crc, ms, deliveredCount, p))
    && (forall m <- ms :: WithinLimits(m))
  }

  ghost predicate LiveInv(cfg: Config, e: Endpoint) {
    && OutInv(cfg.crc, e.out)
    && Accounting(cfg, e.out.batches, e.ledger)
    && Calling(e.out, e.pendingAck, e.inCall)
    && Inbound(e.assembler, |e.delivered|, e.pendingAck, e.owed)
  }

  ghost predicate Inv(cfg: Config, e: Endpoint) {
    && Histories(cfg.crc, e.out.messages, |e.delivered|, e.wire)
    && (e.status == Live ==> LiveInv(cfg, e))
  }
}
