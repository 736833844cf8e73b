/** The older relay protocol: frames numbered from 1, a bounded buffer while the transport refuses, and
    a receiver that takes only the next number. */
module SequencedRelay {
  import opened Wrappers

  type Bytes = seq<int>

  datatype Frame = Frame(seqNo: nat, data: Bytes)

  /** What reaches acceptPayload: a frame of this bridge session, or anything else. */
  datatype Candidate = Own(frame: Frame) | Foreign

  /** `timed` is false when buffering has no timeout. */
  datatype Config = Config(maxBufferedFrames: int, timed: bool)

  /** `answers` are the transport's future answers, false once they run out.  The last five fields
      record what happened and never influence a step. */
  datatype State = State(
    disposed: bool, degraded: bool, seqNo: nat, inboundSeq: nat, buffered: seq<Frame>, timer: bool,
    answers: seq<bool>,
    sent: seq<Bytes>,        // every message given a number
    accepted: seq<Frame>,    // every frame the transport accepted
    delivered: seq<Bytes>,   // every message handed to the listener
    reported: seq<nat>,      // counts passed to onBufferedFrameTimeout
    discarded: nat)          // frames thrown away by degrading, dropping or disposing

  datatype Step =
    | Send(data: Bytes)
    | Flush
    | TimeOut
    | DropBuffered
    | MarkDegraded
    | Accept(candidate: Candidate)
    | Dispose

  function Fresh(answers: seq<bool>): State {
    State(false, false, 0, 0, [], false, answers, [], [], [], [], 0)
  }

  /** The transport takes the frame, or refuses it. */
  function Offered(s: State, f: Frame): (State, bool) {
    if s.degraded then (s, false)
    else if s.answers == [] then (s, false)
    else if s.answers[0] then (s.(answers := s.answers[1..], accepted := s.accepted + [f]), true)
    else (s.(answers := s.answers[1..]), false)
  }

  /** startBufferedFrameTimer. */
  function Armed(cfg: Config, s: State): State {
    s.(timer := s.timer || (cfg.timed && s.buffered != []))
  }

  /** bufferFrame: a full buffer is dropped together with the frame, and reported. */
  function Buffered(cfg: Config, s: State, f: Frame): State {
    if |s.buffered| >= cfg.maxBufferedFrames then
      s.(buffered := [], timer := false, reported := s.reported + [|s.buffered| + 1])
    else Armed(cfg, s.(buffered := s.buffered + [f]))
  }

  /** The flush loop: from the oldest frame on, until one is refused. */
  function Flushed(cfg: Config, s: State): State
    decreases |s.buffered|
  {
    if s.buffered == [] then s.(timer := false)
    else
      var (after, taken) := Offered(s, s.buffered[0]);
      if taken then Flushed(cfg, after.(buffered := s.buffered[1..])) else Armed(cfg, after)
  }

  /** flushPendingFrames. */
  function Pending(cfg: Config, s: State): State {
    if s.disposed || s.degraded || s.buffered == [] then s else Flushed(cfg, s)
  }

  function Cleared(s: State): State {
    s.(buffered := [], timer := false, discarded := s.discarded + |s.buffered|)
  }

  function Degraded(s: State): State {
    if s.degraded then s else Cleared(s.(degraded := true))
  }

  function Sent(cfg: Config, s: State, data: Bytes): State {
    if s.disposed || s.degraded then s
    else
      var numbered := s.(seqNo := s.seqNo + 1, sent := s.sent + [data]);
      var frame := Frame(numbered.seqNo, data);
      if s.buffered != [] then Pending(cfg, Buffered(cfg, numbered, frame))
      else
        var (after, taken) := Offered(numbered, frame);
        if taken then after else Buffered(cfg, after, frame)
  }

  /** acceptPayload: an old number is ignored, the next one delivered, a gap degrades. */
  function Received(s: State, c: Candidate): State {
    if s.disposed || s.degraded || c.Foreign? || c.frame.seqNo <= s.inboundSeq then s
    else if c.frame.seqNo != s.inboundSeq + 1 then Degraded(s)
    else s.(inboundSeq := c.frame.seqNo, delivered := s.delivered + [c.frame.data])
  }

  /** The timer can only fire while it is armed. */
  predicate Enabled(s: State, step: Step) {
    step.TimeOut? ==> s.timer
  }

  function Apply(cfg: Config, s: State, step: Step): State
    requires Enabled(s, step)
  {
    match step
    case Send(data) => Sent(cfg, s, data)
    case Flush => Pending(cfg, s)
    case TimeOut => s.(timer := false, buffered := [], reported := s.reported + [|s.buffered|])
    case DropBuffered => Cleared(s)
    case MarkDegraded => Degraded(s)
    case Accept(c) => Received(s, c)
    case Dispose => Cleared(s.(disposed := true))
  }

  /** The closure's variables as an object; `view` is the state they stand for. */
  class RelayProtocol {
    const cfg: Config
    var disposed: bool
    var degraded: bool
    var seqNo: nat
    var inboundSeq: nat
    var bufferedFrames: seq<Frame>
    var timer: bool
    var answers: seq<bool>
    ghost var view: State

    ghost predicate Valid()
      reads this
    {
      && disposed == view.disposed && degraded == view.degraded && seqNo == view.seqNo
      && inboundSeq == view.inboundSeq && bufferedFrames == view.buffered && timer == view.timer
      && answers == view.answers
    }

    constructor (cfg: Config, answers: seq<bool>)
      ensures Valid() && view == Fresh(answers) && this.cfg == cfg
    {
      this.cfg, this.answers := cfg, answers;
      disposed, degraded, seqNo, inboundSeq, bufferedFrames, timer := false, false, 0, 0, [], false;
      view := Fresh(answers);
    }

    method TrySendFrame(frame: Frame) returns (taken: bool)
      requires Valid()
      modifies this`answers, this`view
      ensures Valid() && (view, taken) == Offered(old(view), frame)
    {
      if degraded || answers == [] { return false; }
      taken := answers[0];
      answers := answers[1..];
      view := view.(answers := answers, accepted := if taken then view.accepted + [frame] else view.accepted);
    }

    method StartBufferedFrameTimer()
      requires Valid()
      modifies this`timer, this`view
      ensures Valid() && view == Armed(cfg, old(view))
    {
      if timer || bufferedFrames == [] || !cfg.timed { return; }
      timer := true;
      view := view.(timer := true);
    }

    method BufferFrame(frame: Frame)
      requires Valid()
      modifies this`bufferedFrames, this`timer, this`view
      ensures Valid() && view == Buffered(cfg, old(view), frame)
    {
      if |bufferedFrames| >= cfg.maxBufferedFrames {
        var droppedCount := |bufferedFrames| + 1;
        bufferedFrames, timer := [], false;
        view := view.(buffered := [], timer := false, reported := view.reported + [droppedCount]);
        return;
      }
      bufferedFrames := bufferedFrames + [frame];
      view := view.(buffered := bufferedFrames);
      StartBufferedFrameTimer();
    }

    method FlushPendingFrames() returns (flushed: bool)
      requires Valid()
      modifies this
      ensures Valid() && view == Pending(cfg, old(view))
      // true exactly when something was waiting and nothing is any more
      ensures flushed <==> old(bufferedFrames) != [] && bufferedFrames == [] && !disposed && !degraded
    {
      if disposed || degraded || bufferedFrames == [] { return false; }
      while bufferedFrames != []
        invariant Valid() && Flushed(cfg, view) == Flushed(cfg, old(view)) && !disposed && !degraded
        decreases |bufferedFrames|
      {
        var taken := TrySendFrame(bufferedFrames[0]);
        if !taken {
          StartBufferedFrameTimer();
          return false;
        }
        bufferedFrames := bufferedFrames[1..];
        view := view.(buffered := bufferedFrames);
      }
      timer := false;
      view := view.(timer := false);
      return true;
    }

    method DropBufferedFrames() returns (droppedCount: nat)
      requires Valid()
      modifies this`bufferedFrames, this`timer, this`view
      ensures Valid() && view == Cleared(old(view)) && droppedCount == |old(bufferedFrames)|
    {
      droppedCount := |bufferedFrames|;
      bufferedFrames, timer := [], false;
      view := Cleared(view);
    }

    method MarkDegraded()
      requires Valid()
      modifies this
      ensures Valid() && view == Degraded(old(view))
    {
      if degraded { return; }
      degraded := true;
      view := view.(degraded := true);
      var _ := DropBufferedFrames();
    }

    method Send(data: Bytes)
      requires Valid()
      modifies this
      ensures Valid() && view == Sent(cfg, old(view), data)
    {
      if disposed || degraded { return; }
      seqNo := seqNo + 1;
      view := view.(seqNo := seqNo, sent := view.sent + [data]);
      var frame := Frame(seqNo, data);
      if bufferedFrames != [] {
        BufferFrame(frame);
        var _ := FlushPendingFrames();
        return;
      }
      var taken := TrySendFrame(frame);
      if !taken { BufferFrame(frame); }
    }

    /** The gap, if there is one, is the report to onFrameGap: the number seen and the one expected. */
    method AcceptPayload(payload: Candidate) returns (gap: Option<(nat, nat)>)
      requires Valid()
      modifies this
      ensures Valid() && view == Received(old(view), payload)
      ensures gap.Some? <==> !old(degraded) && view.degraded
      ensures gap.Some? ==> gap.value == (payload.frame.seqNo, old(inboundSeq) + 1)
    {
      if disposed || degraded || payload.Foreign? { return None; }
      var expectedSeq := inboundSeq + 1;
      if payload.frame.seqNo <= inboundSeq { return None; }
      if payload.frame.seqNo != expectedSeq {
        MarkDegraded();
        return Some((payload.frame.seqNo, expectedSeq));
      }
      inboundSeq := payload.frame.seqNo;
      view := view.(inboundSeq := inboundSeq, delivered := view.delivered + [payload.frame.data]);
      return None;
    }

    method TimerFires()
      requires Valid() && timer
      modifies this
      ensures Valid() && view == Apply(cfg, old(view), Step.TimeOut)
    {
      var timedOutCount := |bufferedFrames|;
      timer, bufferedFrames := false, [];
      view := view.(timer := false, buffered := [], reported := view.reported + [timedOutCount]);
    }

    method Dispose()
      requires Valid()
      modifies this
      ensures Valid() && view == Apply(cfg, old(view), Step.Dispose)
    {
      disposed := true;
      bufferedFrames, timer := [], false;
      view := Cleared(view.(disposed := true));
    }
  }
}
