/** Every step of the endpoint keeps its invariant, whatever arrives and in whatever order. */
module RelayEndpointSafety {
  import opened Wrappers
  import opened RelayFrames
  import opened RelayAssembler
  import opened RelayBatchQueue
  import opened RelayEndpoint

  lemma FreshInv(cfg: Config)
    ensures Inv(cfg, FRESH)
  {
  }

  lemma UnsentAtCursor(o: Outgoing)
    requires CursorRule(o.batches, o.cursor)
    ensures HasUnsent(o) <==> o.cursor < |o.batches|
  {
    if o.cursor < |o.batches| { assert CursorAt(o.batches, o.cursor, o.cursor); }
  }

  // ---------- reserving a message ----------

  lemma BatchForAppend(crc: Crc, ms: seq<Message>, more: Message, m: nat, b: Batch)
    requires BatchFor(crc, ms, m, b)
    ensures BatchFor(crc, ms + [more], m, b)
  {
    FirstSeqAppend(ms, more, m);
  }

  lemma NewBatch(crc: Crc, ms: seq<Message>, m: Message, outerBytes: nat)
    ensures BatchFor(crc, ms + [m], |ms|,
                     Batch(|ms| + 1, EncodeFrames(crc, FirstSeq(ms, |ms|), |ms| + 1, m), outerBytes, 0))
  {
    FirstSeqAppend(ms, m, |ms|);
  }

  lemma AppendCovers(crc: Crc, ms: seq<Message>, m: Message, first: nat, batches: seq<Batch>, b: Batch)
    requires Covers(crc, ms, first, batches) && BatchFor(crc, ms + [m], |ms|, b)
    ensures Covers(crc, ms + [m], first, batches + [b])
  {
    forall i: nat | i < |batches|
      ensures CarriesAt(crc, ms + [m], first, batches + [b], i)
    {
      assert CarriesAt(crc, ms, first, batches, i);
      BatchForAppend(crc, ms, m, first + i, batches[i]);
    }
  }

  lemma AppendCursor(batches: seq<Batch>, cursor: nat, b: Batch)
    requires CursorRule(batches, cursor) && b.nextFrameIndex == 0 < |b.frames|
    ensures CursorRule(batches + [b], cursor)
  {
    forall i: nat | i < |batches|
      ensures CursorAt(batches + [b], cursor, i)
    {
      assert CursorAt(batches, cursor, i);
    }
  }

  lemma ReserveOutbound(crc: Crc, o: Outgoing, m: Message, outerBytes: nat)
    requires Outbound(crc, o)
    ensures Outbound(crc, Appended(crc, o, m, outerBytes))
  {
    var o' := Appended(crc, o, m, outerBytes);
    FirstSeqAppend(o.messages, m, |o.messages|);
    NewBatch(crc, o.messages, m, outerBytes);
    AppendCovers(crc, o.messages, m, o.lastAcked, o.batches, o'.batches[|o.batches|]);
    AppendCursor(o.batches, o.cursor, o'.batches[|o.batches|]);
  }

  lemma ReserveNextSeq(crc: Crc, o: Outgoing, m: Message, outerBytes: nat)
    requires Outbound(crc, o)
    ensures var o' := Appended(crc, o, m, outerBytes);
            NextSeq(o') == NextSeq(o) && (HasUnsent(o) ==> HasUnsent(o') && NextFrame(o') == NextFrame(o))
  {
    var frames := EncodeFrames(crc, o.nextPhysicalSeq, o.nextMessageSeq, m);
    assert frames[0].seqNo == o.nextPhysicalSeq;
    UnsentAtCursor(o);
  }

  lemma ReserveEpoch(ms: seq<Message>, m: Message, lastAcked: nat, accepted: seq<nat>, next: nat)
    requires Epoch(ms, lastAcked, accepted, next)
    ensures Epoch(ms + [m], lastAcked, accepted, next)
  {
    FirstSeqAppend(ms, m, lastAcked);
  }

  lemma ReserveSent(ms: seq<Message>, m: Message, sentThrough: nat, highest: nat)
    requires Sent(ms, sentThrough, highest)
    ensures Sent(ms + [m], sentThrough, highest)
  {
    var ms' := ms + [m];
    FirstSeqAppend(ms, m, |ms|);
    assert FirstSeq(ms', |ms| + 1) == FirstSeq(ms', |ms|) + |m|;
    forall k: nat | Below(ms', k, sentThrough)
      ensures k <= highest
    {
      if k <= |ms| {
        FirstSeqAppend(ms, m, k);
        assert Below(ms, k, sentThrough);
      }
    }
  }

  lemma ReserveAccounting(cfg: Config, batches: seq<Batch>, b: Batch, l: Ledger)
    requires ValidConfig(cfg) && Accounting(cfg, batches, l) && l.unackedBytes + b.outerBytes <= cfg.replayCap
    ensures Accounting(cfg, batches + [b], Charged(cfg, l, b.outerBytes))
  {
    SumBytesConcat(batches, [b]);
    assert [b][1..] == [];
  }

  lemma ReserveHistories(crc: Crc, ms: seq<Message>, m: Message, delivered: nat, wire: seq<Payload>)
    requires Histories(crc, ms, delivered, wire) && WithinLimits(m)
    ensures Histories(crc, ms + [m], delivered, wire)
  {
    forall p <- wire
      ensures GenuinePayload(crc, ms + [m], delivered, p)
    {
      if p.Data? { GenuineAppend(crc, ms, m, p.frame); }
    }
  }

  lemma ReserveInv(cfg: Config, e: Endpoint, m: Message, outerBytes: nat)
    requires ValidConfig(cfg) && Inv(cfg, e) && Enabled(cfg, e, Reserve(m, outerBytes))
    ensures Inv(cfg, Apply(cfg, e, Reserve(m, outerBytes)))
  {
    var o := e.out;
    ReserveOutbound(cfg.crc, o, m, outerBytes);
    ReserveNextSeq(cfg.crc, o, m, outerBytes);
    ReserveEpoch(o.messages, m, o.lastAcked, o.accepted, NextSeq(o));
    ReserveSent(o.messages, m, o.sentThrough, o.highestFullySent);
    var frames := EncodeFrames(cfg.crc, o.nextPhysicalSeq, o.nextMessageSeq, m);
    ReserveAccounting(cfg, o.batches, Batch(o.nextMessageSeq, frames, outerBytes, 0), e.ledger);
    ReserveHistories(cfg.crc, o.messages, m, |e.delivered|, e.wire);
  }

  // ---------- calling sendFrame ----------

  /** The cursor's frame, from the message it belongs to. */
  lemma NextFramePlaced(crc: Crc, o: Outgoing)
    requires Outbound(crc, o) && HasUnsent(o)
    ensures var m := o.lastAcked + o.cursor; var i := o.batches[o.cursor].nextFrameIndex;
            && InTable(o.messages, m, i)
            && NextFrame(o) == FrameAt(crc, o.messages, m, i)
            && NextSeq(o) == FirstSeq(o.messages, m) + i
            && |o.batches[o.cursor].frames| == |o.messages[m]|
  {
    var m := o.lastAcked + o.cursor;
    assert CarriesAt(crc, o.messages, o.lastAcked, o.batches, o.cursor);
    assert o.batches[o.cursor].frames == FramesOf(crc, o.messages, m);
  }

  lemma NextIsGenuine(cfg: Config, e: Endpoint)
    requires Inv(cfg, e) && e.status == Live && CanSend(e)
    ensures GenuinePayload(cfg.crc, e.out.messages, |e.delivered|, NextPayload(e))
  {
    if e.pendingAck.None? { NextFramePlaced(cfg.crc, e.out); }
  }

  lemma EmitInv(cfg: Config, e: Endpoint)
    requires Inv(cfg, e) && Enabled(cfg, e, Emit)
    ensures Inv(cfg, Apply(cfg, e, Emit))
  {
    NextIsGenuine(cfg, e);
  }

  lemma AcceptedOutbound(crc: Crc, o: Outgoing, f: Frame)
    requires Outbound(crc, o) && HasUnsent(o)
    ensures Outbound(crc, FrameAccepted(o, f))
  {
    var o' := FrameAccepted(o, f);
    FramesNonEmpty(crc, o.messages, o.lastAcked, o.batches);
    assert CarriesAt(crc, o.messages, o.lastAcked, o.batches, o.cursor);
    forall i: nat | i < |o'.batches|
      ensures CarriesAt(crc, o'.messages, o'.lastAcked, o'.batches, i) && CursorAt(o'.batches, o'.cursor, i)
    {
      assert CarriesAt(crc, o.messages, o.lastAcked, o.batches, i) && CursorAt(o.batches, o.cursor, i);
    }
  }

  /** Counting one accepted frame moves the cursor to the next physical number. */
  lemma AcceptedNextSeq(crc: Crc, o: Outgoing, f: Frame)
    requires Outbound(crc, o) && HasUnsent(o)
    ensures NextSeq(FrameAccepted(o, f)) == NextSeq(o) + 1
  {
    var o' := FrameAccepted(o, f);
    var m := o.lastAcked + o.cursor;
    NextFramePlaced(crc, o);
    AcceptedOutbound(crc, o, f);
    assert FirstSeq(o.messages, m + 1) == FirstSeq(o.messages, m) + |o.messages[m]|;
    UnsentAtCursor(o');
    if HasUnsent(o') { NextFramePlaced(crc, o'); }
    if o'.cursor < |o'.batches| { assert CursorAt(o.batches, o.cursor, o'.cursor); }
  }

  lemma {:induction false} SumBytesSame(xs: seq<Batch>, ys: seq<Batch>)
    requires |xs| == |ys| && forall i :: 0 <= i < |xs| ==> xs[i].outerBytes == ys[i].outerBytes
    ensures SumBytes(xs) == SumBytes(ys)
  {
    if xs != [] { SumBytesSame(xs[1..], ys[1..]); }
  }

  /** Completing a message is noticed: `highestFullySent` keeps up with the numbers accepted. */
  lemma AcceptedSent(ms: seq<Message>, sentThrough: nat, highest: nat, m: nat, i: nat)
    requires Sent(ms, sentThrough, highest) && InTable(ms, m, i) && m <= highest
    ensures Sent(ms, Max(sentThrough, FirstSeq(ms, m) + i + 1),
                 if i + 1 == |ms[m]| then Max(highest, m + 1) else highest)
  {
    var s := FirstSeq(ms, m) + i + 1;
    assert FirstSeq(ms, m + 1) == FirstSeq(ms, m) + |ms[m]|;
    FirstSeqMonotone(ms, m, |ms|);
    forall k: nat | Below(ms, k, Max(sentThrough, s))
      ensures k <= if i + 1 == |ms[m]| then Max(highest, m + 1) else highest
    {
      if Below(ms, k, sentThrough) {
      } else if k > m + 1 {
        FirstSeqMonotone(ms, m + 1, k);
      }
    }
  }

  lemma AcceptedEpoch(ms: seq<Message>, lastAcked: nat, accepted: seq<nat>, next: nat)
    requires Epoch(ms, lastAcked, accepted, next)
    ensures Epoch(ms, lastAcked, accepted + [next], next + 1)
  {
    var accepted' := accepted + [next];
    assert forall i :: 0 <= i < |accepted| ==> accepted[i] in accepted;
    assert accepted'[|accepted|] == next;
    assert forall x <- accepted :: x in accepted';
  }

  lemma AcceptedOut(crc: Crc, o: Outgoing)
    requires OutInv(crc, o) && HasUnsent(o)
    ensures OutInv(crc, FrameAccepted(o, NextFrame(o)))
  {
    AcceptedOutbound(crc, o, NextFrame(o));
    AcceptedNextSeq(crc, o, NextFrame(o));
    AcceptedEpoch(o.messages, o.lastAcked, o.accepted, NextSeq(o));
    AcceptedSentOut(crc, o);
  }

  lemma AcceptedSentOut(crc: Crc, o: Outgoing)
    requires Outbound(crc, o) && HasUnsent(o) && Sent(o.messages, o.sentThrough, o.highestFullySent)
    ensures var o' := FrameAccepted(o, NextFrame(o)); Sent(o'.messages, o'.sentThrough, o'.highestFullySent)
  {
    var m := o.lastAcked + o.cursor;
    NextFramePlaced(crc, o);
    assert CarriesAt(crc, o.messages, o.lastAcked, o.batches, o.cursor);
    AcceptedSent(o.messages, o.sentThrough, o.highestFullySent, m, o.batches[o.cursor].nextFrameIndex);
  }

  lemma ReturnInv(cfg: Config, e: Endpoint, accepted: bool)
    requires Inv(cfg, e) && Enabled(cfg, e, Return(accepted))
    ensures Inv(cfg, Apply(cfg, e, Return(accepted)))
  {
    if accepted && e.inCall.value.Data? {
      var out := FrameAccepted(e.out, NextFrame(e.out));
      AcceptedOut(cfg.crc, e.out);
      SumBytesSame(e.out.batches, out.batches);
      UpdatedInv(cfg, e.(inCall := None), out, e.ledger);
    }
  }

  // ---------- processing what arrives ----------

  lemma StoppedInv(cfg: Config, e: Endpoint, status: Status)
    requires Inv(cfg, e) && status != Live
    ensures Inv(cfg, Stopped(e, status))
  {
  }

  /** A cumulative acknowledgement releases exactly the messages up to it. */
  lemma ReleaseCountConsecutive(crc: Crc, o: Outgoing, ack: nat)
    requires Outbound(crc, o) && o.lastAcked < ack <= |o.messages|
    ensures ReleaseCount(o.batches, ack) == ack - o.lastAcked
  {
    var n := ReleaseCount(o.batches, ack);
    if n < |o.batches| { assert CarriesAt(crc, o.messages, o.lastAcked, o.batches, n); }
    if n > 0 { assert CarriesAt(crc, o.messages, o.lastAcked, o.batches, n - 1); }
  }

  lemma DroppedOutbound(crc: Crc, o: Outgoing, n: nat)
    requires Outbound(crc, o) && o.lastAcked + n <= o.highestFullySent
    ensures Outbound(crc, Dropped(o, n, o.lastAcked + n))
  {
    var o' := Dropped(o, n, o.lastAcked + n);
    FramesNonEmpty(crc, o.messages, o.lastAcked, o.batches);
    forall i: nat | i < |o'.batches|
      ensures CarriesAt(crc, o'.messages, o'.lastAcked, o'.batches, i) && CursorAt(o'.batches, o'.cursor, i)
    {
      assert CarriesAt(crc, o.messages, o.lastAcked, o.batches, n + i) && CursorAt(o.batches, o.cursor, n + i);
    }
  }

  lemma FramesNonEmpty(crc: Crc, ms: seq<Message>, first: nat, batches: seq<Batch>)
    requires Covers(crc, ms, first, batches)
    ensures forall i :: 0 <= i < |batches| ==> |batches[i].frames| > 0
  {
    forall i | 0 <= i < |batches|
      ensures |batches[i].frames| > 0
    {
      assert CarriesAt(crc, ms, first, batches, i);
      assert |FramesOf(crc, ms, first + i)| == |ms[first + i]|;
    }
  }

  /** Sending goes on where it was, or with the first message after the acknowledged ones. */
  lemma DroppedNextSeq(crc: Crc, o: Outgoing, n: nat)
    requires Outbound(crc, o) && o.lastAcked + n <= o.highestFullySent
    ensures NextSeq(Dropped(o, n, o.lastAcked + n)) == Max(NextSeq(o), FirstSeq(o.messages, o.lastAcked + n))
  {
    if n <= o.cursor { DropBehindCursor(crc, o, n); } else { DropPastCursor(crc, o, n); }
  }

  lemma DropBehindCursor(crc: Crc, o: Outgoing, n: nat)
    requires Outbound(crc, o) && o.lastAcked + n <= o.highestFullySent && n <= o.cursor
    ensures NextSeq(Dropped(o, n, o.lastAcked + n)) == NextSeq(o)
    ensures FirstSeq(o.messages, o.lastAcked + n) <= NextSeq(o)
  {
    UnsentAtCursor(o);
    if HasUnsent(o) {
      NextFramePlaced(crc, o);
      assert o.batches[n..][o.cursor - n] == o.batches[o.cursor];
    }
    if n < o.cursor { FirstSeqMonotone(o.messages, o.lastAcked + n, o.lastAcked + o.cursor); }
  }

  lemma DropPastCursor(crc: Crc, o: Outgoing, n: nat)
    requires Outbound(crc, o) && o.lastAcked + n <= o.highestFullySent && n > o.cursor
    ensures NextSeq(Dropped(o, n, o.lastAcked + n)) == FirstSeq(o.messages, o.lastAcked + n)
    ensures NextSeq(o) <= FirstSeq(o.messages, o.lastAcked + n)
  {
    UnsentAtCursor(o);
    NextFramePlaced(crc, o);
    FirstSeqMonotone(o.messages, o.lastAcked + o.cursor, o.lastAcked + n);
    if n < |o.batches| { UnstartedBatch(crc, o, n); }
  }

  lemma UnstartedBatch(crc: Crc, o: Outgoing, n: nat)
    requires Outbound(crc, o) && o.cursor < n < |o.batches|
    ensures var b := o.batches[n];
            b.nextFrameIndex == 0 < |b.frames| && b.frames[0].seqNo == FirstSeq(o.messages, o.lastAcked + n)
  {
    assert CarriesAt(crc, o.messages, o.lastAcked, o.batches, n) && CursorAt(o.batches, o.cursor, n);
    assert o.batches[n].frames[0] == FrameAt(crc, o.messages, o.lastAcked + n, 0);
  }

  lemma ReleasedAccounting(cfg: Config, batches: seq<Batch>, l: Ledger, n: nat)
    requires ValidConfig(cfg) && Accounting(cfg, batches, l) && n <= |batches|
    ensures Accounting(cfg, batches[n..], Credited(cfg, l, SumBytes(batches[..n])))
    // the subtraction never has to be clamped
    ensures SumBytes(batches[..n]) <= l.unackedBytes
  {
    assert batches == batches[..n] + batches[n..];
    SumBytesConcat(batches[..n], batches[n..]);
  }

  lemma AckInv(cfg: Config, e: Endpoint, ack: nat)
    requires ValidConfig(cfg) && Inv(cfg, e) && e.status == Live && e.inCall.None?
    ensures Inv(cfg, ProcessAck(cfg, e, ack))
  {
    if ack > e.out.highestFullySent {
      StoppedInv(cfg, e, Degraded);
    } else if ack > e.out.lastAcked {
      AckReleasesInv(cfg, e, ack);
    }
  }

  lemma AckReleasesInv(cfg: Config, e: Endpoint, ack: nat)
    requires ValidConfig(cfg) && Inv(cfg, e) && e.status == Live && e.inCall.None?
    requires e.out.lastAcked < ack <= e.out.highestFullySent
    ensures Inv(cfg, ProcessAck(cfg, e, ack))
  {
    AckEffect(cfg, e, ack);
    CreditedInv(cfg, e, ack - e.out.lastAcked, ProcessAck(cfg, e, ack));
  }

  lemma AckEffect(cfg: Config, e: Endpoint, ack: nat)
    requires Outbound(cfg.crc, e.out) && e.out.lastAcked < ack <= e.out.highestFullySent
    ensures var n := ack - e.out.lastAcked;
            ProcessAck(cfg, e, ack) == e.(out := Dropped(e.out, n, e.out.lastAcked + n),
                                          ledger := Credited(cfg, e.ledger, SumBytes(e.out.batches[..n])))
  {
    ReleaseCountConsecutive(cfg.crc, e.out, ack);
  }

  lemma CreditedInv(cfg: Config, e: Endpoint, n: nat, after: Endpoint)
    requires ValidConfig(cfg) && Inv(cfg, e) && e.status == Live && e.inCall.None?
    requires e.out.lastAcked + n <= e.out.highestFullySent
    requires after == e.(out := Dropped(e.out, n, e.out.lastAcked + n),
                         ledger := Credited(cfg, e.ledger, SumBytes(e.out.batches[..n])))
    ensures Inv(cfg, after)
  {
    ReleasedOut(cfg.crc, e.out, n);
    ReleasedAccounting(cfg, e.out.batches, e.ledger, n);
    UpdatedInv(cfg, e, Dropped(e.out, n, e.out.lastAcked + n), Credited(cfg, e.ledger, SumBytes(e.out.batches[..n])));
  }

  lemma UpdatedInv(cfg: Config, e: Endpoint, out: Outgoing, ledger: Ledger)
    requires Inv(cfg, e) && e.status == Live && e.inCall.None?
    requires OutInv(cfg.crc, out) && Accounting(cfg, out.batches, ledger) && out.messages == e.out.messages
    ensures Inv(cfg, e.(out := out, ledger := ledger))
  {
  }

  lemma ReleasedOut(crc: Crc, o: Outgoing, n: nat)
    requires OutInv(crc, o) && o.lastAcked + n <= o.highestFullySent
    ensures OutInv(crc, Dropped(o, n, o.lastAcked + n))
  {
    DroppedOutbound(crc, o, n);
    DroppedNextSeq(crc, o, n);
    if n > 0 { FirstSeqMonotone(o.messages, o.lastAcked, o.lastAcked + n); }
  }

  ghost predicate Counting(a: Assembler) {
    !a.faulted && a.expectedMessage == a.lastCompleted + 1
    && (a.active.Some? ==> a.active.value.messageSeq == a.expectedMessage)
  }

  /** Whatever frame arrives, the assembler counts one message per completion. */
  lemma AcceptCounts(crc: Crc, a: Assembler, f: Frame)
    requires Counting(a)
    ensures var (a', event) := Accept(crc, a, f);
            event.Fault? ||
            (&& Counting(a')
             && a'.lastCompleted == a.lastCompleted + (if event.Complete? then 1 else 0)
             && (event.Duplicate? ==> a' == a && event == Repeated(a))
             && (event.Complete? ==> event.messageSeq == a'.lastCompleted))
  {
    if f.seqNo == a.expectedSeq && f.messageSeq == a.expectedMessage { ExtendCounts(crc, a, f); }
  }

  lemma ExtendCounts(crc: Crc, a: Assembler, f: Frame)
    requires Counting(a) && f.messageSeq == a.expectedMessage
    ensures var (a', event) := Extend(crc, a, f);
            event.Fault? ||
            (&& Counting(a') && !event.Duplicate?
             && a'.lastCompleted == a.lastCompleted + (if event.Complete? then 1 else 0)
             && (event.Complete? ==> event.messageSeq == a'.lastCompleted))
  {
    var now := Grown(crc, a, f);
    var moved := a.(expectedSeq := a.expectedSeq + 1, active := Some(now));
    assert Counting(moved) && now.messageSeq == a.expectedMessage;
    FinishCounts(crc, moved, now);
  }

  lemma FinishCounts(crc: Crc, a: Assembler, done: Assembly)
    requires Counting(a) && done.messageSeq == a.expectedMessage
    ensures var (a', event) := Finish(crc, a, done);
            event.Fault? ||
            (Counting(a') && event.Complete? && event.messageSeq == a'.lastCompleted == a.lastCompleted + 1)
  {
  }

  lemma InboundInv(cfg: Config, e: Endpoint, p: Payload)
    requires ValidConfig(cfg) && Inv(cfg, e) && e.status == Live && e.inCall.None?
    ensures Inv(cfg, ProcessInbound(cfg, e, p))
  {
    StoppedInv(cfg, e, Degraded);
    if p.Ack? {
      AckInv(cfg, e, p.messageSeq);
    } else if p.Data? && ValidFrame(p.frame) {
      var (assembler, event) := Accept(cfg.crc, e.assembler, p.frame);
      AcceptCounts(cfg.crc, e.assembler, p.frame);
      if event.Complete? {
        AssembledInv(cfg, e, assembler, e.delivered + [event.bytes], event.messageSeq);
      } else if !event.Fault? {
        AssembledInv(cfg, e, assembler, e.delivered, Owing(e.owed, event));
      }
    }
  }

  /** Only the receiving half changes when a frame is taken. */
  lemma AssembledInv(cfg: Config, e: Endpoint, assembler: Assembler, delivered: seq<Bytes>, owed: nat)
    requires Inv(cfg, e) && e.status == Live && |e.delivered| <= |delivered| && owed <= |delivered|
    requires Counting(assembler) && assembler.lastCompleted == |delivered|
    ensures Inv(cfg, e.(assembler := assembler, delivered := delivered, owed := owed))
  {
    assert forall p <- e.wire :: GenuinePayload(cfg.crc, e.out.messages, |e.delivered|, p);
  }

  // ---------- replay ----------

  lemma RewindOutbound(crc: Crc, o: Outgoing)
    requires Outbound(crc, o)
    ensures Outbound(crc, Rewind(o))
    // the resend starts at frame 0 of the oldest unacknowledged message
    ensures NextSeq(Rewind(o)) == FirstSeq(o.messages, o.lastAcked)
  {
    var o' := Rewind(o);
    FramesNonEmpty(crc, o.messages, o.lastAcked, o.batches);
    forall i: nat | i < |o'.batches|
      ensures CarriesAt(crc, o.messages, o.lastAcked, o'.batches, i)
    {
      assert CarriesAt(crc, o.messages, o.lastAcked, o.batches, i);
    }
    if HasUnsent(o') { NextFramePlaced(crc, o'); }
  }

  lemma ReplayInv(cfg: Config, e: Endpoint)
    requires Inv(cfg, e) && Enabled(cfg, e, Replay)
    ensures Inv(cfg, Apply(cfg, e, Replay))
  {
    SumBytesSame(e.out.batches, Rewind(e.out).batches);
    RewindOutbound(cfg.crc, e.out);
  }

  // ---------- all steps ----------

  lemma ReceiveInv(cfg: Config, e: Endpoint, p: Payload)
    requires ValidConfig(cfg) && Inv(cfg, e) && Enabled(cfg, e, Receive(p))
    ensures Inv(cfg, Apply(cfg, e, Receive(p)))
  {
    if e.inCall.None? { InboundInv(cfg, e, p); }
  }

  lemma DrainInv(cfg: Config, e: Endpoint)
    requires ValidConfig(cfg) && Inv(cfg, e) && Enabled(cfg, e, Drain)
    ensures Inv(cfg, Apply(cfg, e, Drain))
  {
    InboundInv(cfg, e.(queued := e.queued[1..]), e.queued[0]);
  }

  lemma QueueAckInv(cfg: Config, e: Endpoint, a: nat)
    requires Inv(cfg, e) && Enabled(cfg, e, QueueAck(a))
    ensures Inv(cfg, Apply(cfg, e, QueueAck(a)))
  {
  }

  lemma StepInv(cfg: Config, e: Endpoint, s: Step)
    requires ValidConfig(cfg) && Inv(cfg, e) && Enabled(cfg, e, s)
    ensures Inv(cfg, Apply(cfg, e, s))
  {
    match s
    case Reserve(m, outerBytes) => ReserveInv(cfg, e, m, outerBytes);
    case Emit => EmitInv(cfg, e);
    case Return(accepted) => ReturnInv(cfg, e, accepted);
    case Receive(p) => ReceiveInv(cfg, e, p);
    case Drain => DrainInv(cfg, e);
    case QueueAck(a) => QueueAckInv(cfg, e, a);
    case Replay => ReplayInv(cfg, e);
    case Degrade => StoppedInv(cfg, e, Degraded);
    case Dispose => StoppedInv(cfg, e, Disposed);
  }

  // ---------- whole runs ----------

  /** The state after any run of steps; None when a step was not enabled. */
  function Run(cfg: Config, steps: seq<Step>): Option<Endpoint> {
    if steps == [] then Some(FRESH)
    else
      var before := Run(cfg, steps[..|steps| - 1]);
      var s := steps[|steps| - 1];
      if before.Some? && Enabled(cfg, before.value, s) then Some(Apply(cfg, before.value, s)) else None
  }

  lemma RunGrows(cfg: Config, steps: seq<Step>, s: Step)
    requires Run(cfg, steps).Some? && Enabled(cfg, Run(cfg, steps).value, s)
    ensures Run(cfg, steps + [s]) == Some(Apply(cfg, Run(cfg, steps).value, s))
  {
    hide Apply, Enabled;
    assert (steps + [s])[..|steps|] == steps;
  }

  /** Accounting, cursor, epoch and history facts in every state any run can reach. */
  lemma {:induction false} RunInv(cfg: Config, steps: seq<Step>)
    requires ValidConfig(cfg) && Run(cfg, steps).Some?
    ensures Inv(cfg, Run(cfg, steps).value)
  {
    if steps == [] {
      FreshInv(cfg);
    } else {
      RunInv(cfg, steps[..|steps| - 1]);
      StepInv(cfg, Run(cfg, steps[..|steps| - 1]).value, steps[|steps| - 1]);
    }
  }

  /** While live, in every reachable state: the replay buffer carries exactly the messages after the
      last acknowledged one, in order; its byte counter is exact and below the cap; the saturation
      flag respects both watermarks; saturated and drained events alternate. */
  lemma ReplayBufferExact(cfg: Config, steps: seq<Step>)
    requires ValidConfig(cfg) && Run(cfg, steps).Some? && Run(cfg, steps).value.status == Live
    ensures var o := Run(cfg, steps).value.out;
            && o.lastAcked <= o.highestFullySent < o.nextMessageSeq == |o.messages| + 1
            && Covers(cfg.crc, o.messages, o.lastAcked, o.batches)
            && Accounting(cfg, o.batches, Run(cfg, steps).value.ledger)
  {
    RunInv(cfg, steps);
  }

  /** Since the last replay, accepted data frames carry strictly increasing numbers; any number
      passed over belongs to a message the peer has acknowledged; and while a data frame is being
      sent no acknowledgement waits. */
  lemma SendOrder(cfg: Config, steps: seq<Step>)
    requires ValidConfig(cfg) && Run(cfg, steps).Some? && Run(cfg, steps).value.status == Live
    ensures var e := Run(cfg, steps).value; var o := e.out;
            && o.lastAcked <= |o.messages|
            && (forall i, j :: 0 <= i < j < |o.accepted| ==> o.accepted[i] < o.accepted[j])
            && (forall n :: n < NextSeq(o) && n !in o.accepted ==> n < FirstSeq(o.messages, o.lastAcked))
            && (e.inCall.Some? && e.inCall.value.Data? ==> e.pendingAck.None?)
  {
    RunInv(cfg, steps);
  }

  /** A replay starts over at frame 0 of the oldest unacknowledged message. */
  lemma ReplayRestarts(cfg: Config, e: Endpoint)
    requires ValidConfig(cfg) && Inv(cfg, e) && Enabled(cfg, e, Replay)
    ensures var o := e.out; var replayed := Apply(cfg, e, Replay).out;
            && |replayed.batches| == |o.batches| && replayed.accepted == []
            && (forall i :: 0 <= i < |o.batches| ==> replayed.batches[i] == o.batches[i].(nextFrameIndex := 0))
            && (o.batches != [] ==>
                  && HasUnsent(replayed) && NextFrame(replayed) == o.batches[0].frames[0]
                  && NextFrame(replayed).seqNo == FirstSeq(o.messages, o.lastAcked))
  {
    var o := e.out;
    FramesNonEmpty(cfg.crc, o.messages, o.lastAcked, o.batches);
    if o.batches != [] { assert CarriesAt(cfg.crc, o.messages, o.lastAcked, o.batches, 0); }
  }
}
