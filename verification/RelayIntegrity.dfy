/** What the assembler guarantees whatever frames it is fed: only whole, checked messages are completed,
    from frames that were really there, and a number that comes again with other contents is noticed. */
module RelayIntegrity {
  import opened Wrappers
  import opened RelayFrames
  import opened RelayAssembler

  function Fed(crc: Crc, fs: seq<Frame>): Assembler {
    if fs == [] then INITIAL else Accept(crc, Fed(crc, fs[..|fs| - 1]), fs[|fs| - 1]).0
  }

  function DataOf(fs: seq<Frame>): (chunks: seq<Bytes>)
    ensures |chunks| == |fs| && forall i :: 0 <= i < |fs| ==> chunks[i] == fs[i].data
  {
    seq(|fs|, i requires 0 <= i < |fs| => fs[i].data)
  }

  /** Frame i of one message: all of them agree on what they belong to, and number and index go on by one. */
  ghost predicate PartOf(f: Frame, i: nat, first: nat, g: Frame) {
    && f.seqNo == first + i && f.fragmentIndex == i
    && f.messageSeq == g.messageSeq && f.fragmentCount == g.fragmentCount
    && f.messageBytes == g.messageBytes && f.checksum == g.checksum
  }

  /** Consecutive frames of one message, from its first fragment on. */
  ghost predicate Run(held: seq<Frame>, first: nat) {
    forall i: nat :: i < |held| ==> PartOf(held[i], i, first, held[0])
  }

  /** The fingerprints of exactly these frames, by their numbers. */
  ghost predicate Remembers(crc: Crc, prints: map<nat, Fingerprint>, held: seq<Frame>, first: nat) {
    && (forall s :: s in prints <==> first <= s < first + |held|)
    && (forall s <- prints :: prints[s] == Print(crc, held[s - first]))
  }

  ghost predicate Holding(crc: Crc, now: Assembly, held: seq<Frame>, first: nat) {
    && held != [] && Run(held, first) && now.fragments == DataOf(held)
    && now.messageSeq == held[0].messageSeq && now.fragmentCount == held[0].fragmentCount
    && now.messageBytes == held[0].messageBytes && now.checksum == held[0].checksum
    && Remembers(crc, now.prints, held, first)
  }

  /** The active assembly consists of frames that were fed. */
  ghost predicate Backed(crc: Crc, fs: seq<Frame>, a: Assembler) {
    a.active.Some? ==>
      exists held, first: nat :: HeldFrom(crc, fs, a, held, first)
  }

  ghost predicate HeldFrom(crc: Crc, fs: seq<Frame>, a: Assembler, held: seq<Frame>, first: nat)
    requires a.active.Some?
  {
    && Holding(crc, a.active.value, held, first)
    && a.expectedSeq == first + |held| && a.active.value.messageSeq == a.expectedMessage
    && |held| < held[0].fragmentCount
    && (forall f <- held :: f in fs)
  }

  /** The event completes a message whose frames were all fed, in order and without a gap, and whose bytes
      have the length and the checksum that each of these frames announces; the assembler remembers them. */
  ghost predicate Whole(crc: Crc, fs: seq<Frame>, after: Assembler, event: Event) {
    event.Complete? ==>
      exists held, first: nat :: WholeFrom(crc, fs, after, event.messageSeq, event.bytes, held, first)
  }

  ghost predicate WholeFrom(crc: Crc, fs: seq<Frame>, after: Assembler, messageSeq: nat, bytes: Bytes,
                            held: seq<Frame>, first: nat) {
    && Remembers(crc, after.settled, held, first)
    && held != [] && Run(held, first) && (forall f <- held :: f in fs)
    && |held| == held[0].fragmentCount && messageSeq == held[0].messageSeq
    && bytes == Flatten(DataOf(held)) && |bytes| == held[0].messageBytes && crc(bytes) == held[0].checksum
  }

  lemma DataGrows(held: seq<Frame>, f: Frame)
    ensures DataOf(held + [f]) == DataOf(held) + [f.data]
  {
  }

  /** A frame that is taken joins the frames held. */
  lemma Grows(crc: Crc, a: Assembler, f: Frame, held: seq<Frame>, first: nat)
    requires f.seqNo == a.expectedSeq && f.fragmentIndex == Held(a)
    requires if a.active.None? then held == [] && first == f.seqNo
             else Holding(crc, a.active.value, held, first) && a.expectedSeq == first + |held|
    requires a.active.Some? ==>
               && f.messageSeq == a.active.value.messageSeq && f.fragmentCount == a.active.value.fragmentCount
               && f.messageBytes == a.active.value.messageBytes && f.checksum == a.active.value.checksum
    ensures Holding(crc, Grown(crc, a, f), held + [f], first)
  {
    DataGrows(held, f);
    var more := held + [f];
    forall i: nat | i < |more|
      ensures PartOf(more[i], i, first, more[0])
    {
      assert i < |held| ==> PartOf(held[i], i, first, held[0]);
    }
  }

  lemma HeldStays(crc: Crc, fs: seq<Frame>, f: Frame, a: Assembler)
    requires Backed(crc, fs, a)
    ensures Backed(crc, fs + [f], a)
  {
    if a.active.Some? {
      var held, first: nat :| HeldFrom(crc, fs, a, held, first);
      assert HeldFrom(crc, fs + [f], a, held, first);
    }
  }

  /** The frames that are held before the expected one is taken. */
  lemma Before(crc: Crc, fs: seq<Frame>, a: Assembler, f: Frame) returns (held: seq<Frame>, first: nat)
    requires Backed(crc, fs, a)
    ensures if a.active.None? then held == [] && first == f.seqNo else HeldFrom(crc, fs, a, held, first)
  {
    held, first := [], f.seqNo;
    if a.active.Some? { held, first :| HeldFrom(crc, fs, a, held, first); }
  }

  /** What is known of a frame that is taken, and what becomes of the assembly. */
  lemma ExtendIs(crc: Crc, a: Assembler, f: Frame)
    requires !Extend(crc, a, f).1.Fault?
    ensures
      var (a', event) := Extend(crc, a, f);
      var now := Grown(crc, a, f);
      && f.fragmentIndex == Held(a)
      && (a.active.Some? ==>
            && f.fragmentCount == a.active.value.fragmentCount && f.messageBytes == a.active.value.messageBytes
            && f.checksum == a.active.value.checksum)
      && a'.expectedSeq == a.expectedSeq + 1
      && (if |now.fragments| < now.fragmentCount then
            event == Incomplete && a'.active == Some(now) && a'.expectedMessage == a.expectedMessage
          else
            && event == Complete(now.messageSeq, Flatten(now.fragments)) && a'.active.None?
            && a'.settled == now.prints
            && |Flatten(now.fragments)| == now.messageBytes && crc(Flatten(now.fragments)) == now.checksum)
  {
    hide Flatten;
  }

  lemma ExtendStops(crc: Crc, a: Assembler, f: Frame)
    ensures
      var (a', event) := Extend(crc, a, f);
      event.Fault? ==> a'.faulted && a'.active.None?
  {
    hide Flatten;
  }

  lemma ExtendWhole(crc: Crc, fs: seq<Frame>, a: Assembler, f: Frame)
    requires Backed(crc, fs, a) && ValidFrame(f) && f.seqNo == a.expectedSeq && f.messageSeq == a.expectedMessage
    ensures
      var (a', event) := Extend(crc, a, f);
      Backed(crc, fs + [f], a') && Whole(crc, fs + [f], a', event)
  {
    hide Holding, Print, Run, PartOf, Remembers, Extend, Grown, Flatten, Held;
    var (a', event) := Extend(crc, a, f);
    if event.Fault? {
      ExtendStops(crc, a, f);
    } else {
      var held, first := Before(crc, fs, a, f);
      HeldIs(crc, fs, a, held, first);
      ExtendIs(crc, a, f);
      Grows(crc, a, f, held, first);
      var more, now := held + [f], Grown(crc, a, f);
      GrownIs(crc, now, more, first);
      assert forall g <- more :: g in fs + [f];
      if event.Complete? {
        assert WholeFrom(crc, fs + [f], a', event.messageSeq, event.bytes, more, first);
      } else {
        assert HeldFrom(crc, fs + [f], a', more, first);
      }
    }
  }

  lemma HeldIs(crc: Crc, fs: seq<Frame>, a: Assembler, held: seq<Frame>, first: nat)
    requires a.active.Some? ==> HeldFrom(crc, fs, a, held, first)
    ensures a.active.Some? ==>
              && |a.active.value.fragments| == |held| && held != []
              && a.active.value.fragmentCount == held[0].fragmentCount && a.expectedMessage == held[0].messageSeq
  {
  }

  lemma GrownIs(crc: Crc, now: Assembly, held: seq<Frame>, first: nat)
    requires Holding(crc, now, held, first)
    ensures held != [] && Run(held, first) && now.fragments == DataOf(held) && Remembers(crc, now.prints, held, first)
    ensures now.messageSeq == held[0].messageSeq && now.fragmentCount == held[0].fragmentCount
    ensures now.messageBytes == held[0].messageBytes && now.checksum == held[0].checksum
  {
  }

  lemma AcceptWhole(crc: Crc, fs: seq<Frame>, a: Assembler, f: Frame)
    requires Backed(crc, fs, a) && ValidFrame(f)
    ensures
      var (a', event) := Accept(crc, a, f);
      Backed(crc, fs + [f], a') && Whole(crc, fs + [f], a', event)
  {
    hide Extend, HeldFrom;
    HeldStays(crc, fs, f, a);
    if f.seqNo == a.expectedSeq && f.messageSeq == a.expectedMessage { ExtendWhole(crc, fs, a, f); }
  }

  lemma {:induction false} FedBacked(crc: Crc, fs: seq<Frame>)
    requires forall f <- fs :: ValidFrame(f)
    ensures Backed(crc, fs, Fed(crc, fs))
    decreases |fs|
  {
    hide Accept;
    if fs != [] {
      var before, f := fs[..|fs| - 1], fs[|fs| - 1];
      FedBacked(crc, before);
      AcceptWhole(crc, before, Fed(crc, before), f);
      assert before + [f] == fs;
    }
  }

  /** Whatever frames came before, when one completes a message then as many frames as it announces have
      come, with consecutive numbers and all of that message, and their contents put together have the
      length and the checksum they announce and are what is completed.  From then on exactly these frames are
      remembered, so that a conflicting repetition of any of them is noticed. */
  lemma CompletedIsWhole(crc: Crc, fs: seq<Frame>, f: Frame)
    requires ValidFrame(f) && forall g <- fs :: ValidFrame(g)
    requires Accept(crc, Fed(crc, fs), f).1.Complete?
    ensures
      var (a', event) := Accept(crc, Fed(crc, fs), f);
      exists held, first: nat :: WholeFrom(crc, fs + [f], a', event.messageSeq, event.bytes, held, first)
  {
    hide Accept;
    FedBacked(crc, fs);
    AcceptWhole(crc, fs, Fed(crc, fs), f);
  }

  /** A number that comes again: with the frame remembered under it, it changes nothing; with any other frame
      it is a conflict.  A lower number that is no longer remembered changes nothing, a higher one is a gap,
      and the expected number must carry the expected message.  After a fault there are only faults. */
  lemma AcceptByNumber(crc: Crc, a: Assembler, f: Frame)
    requires f.messageBytes <= MAX_MESSAGE_BYTES && f.fragmentCount <= MAX_FRAGMENTS
    ensures
      var (a', event) := Accept(crc, a, f);
      var current := a.active.Some? && f.seqNo in a.active.value.prints;
      var remembered := current || f.seqNo in a.settled;
      && (a.faulted ==> event == Fault(Terminated))
      && (event.Fault? ==> a'.faulted && a'.active.None?)
      && (!a.faulted && remembered ==>
            var p := if current then a.active.value.prints[f.seqNo] else a.settled[f.seqNo];
            if p == Fingerprint(f.seqNo, f.messageSeq, f.fragmentIndex, f.fragmentCount, f.messageBytes,
                                f.checksum, |f.data|, crc(f.data))
            then a' == a && event == Repeated(a) else event == Fault(ConflictingDuplicate))
      && (!a.faulted && !remembered && f.seqNo < a.expectedSeq ==> a' == a && event == Repeated(a))
      && (!a.faulted && !remembered && f.seqNo > a.expectedSeq ==> event == Fault(PhysicalGap))
      && (!a.faulted && !remembered && f.seqNo == a.expectedSeq && f.messageSeq != a.expectedMessage ==>
            event == Fault(MessageGap))
  {
    hide Extend;
    ExtendStops(crc, a, f);
  }

  /** A frame of the expected number and message is taken exactly when it is the next fragment, agrees with
      the fragments held, and leaves the message its announced length and, at the end, its checksum. */
  lemma TakenExactly(crc: Crc, a: Assembler, f: Frame)
    requires !a.faulted && f.messageBytes <= MAX_MESSAGE_BYTES && f.fragmentCount <= MAX_FRAGMENTS
    requires f.seqNo == a.expectedSeq && f.seqNo !in a.settled && f.messageSeq == a.expectedMessage
    requires a.active.Some? ==> f.seqNo !in a.active.value.prints
    ensures
      var (a', event) := Accept(crc, a, f);
      var held := if a.active.Some? then a.active.value.fragments else [];
      var bytes := Flatten(held + [f.data]);
      var last := |held| + 1 >= f.fragmentCount;
      && (!event.Fault? <==>
            && f.fragmentIndex == |held|
            && (a.active.Some? ==>
                  && f.fragmentCount == a.active.value.fragmentCount && f.messageBytes == a.active.value.messageBytes
                  && f.checksum == a.active.value.checksum)
            && |bytes| <= f.messageBytes
            && (last ==> |bytes| == f.messageBytes && crc(bytes) == f.checksum))
      && (event.Incomplete? <==> !event.Fault? && !last)
      && (!event.Fault? ==> a'.expectedSeq == a.expectedSeq + 1)
      && (event.Incomplete? ==> a'.settled == a.settled)
  {
  }
}
