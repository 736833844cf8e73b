/** The receiving half of the raw RPC transport: one assembly at a time, gap and conflict faults,
    idempotent duplicates.  Its state is a value; every call returns the next one. */
module RelayAssembler {
  import opened Wrappers
  import opened RelayFrames

  datatype Fingerprint = Fingerprint(seqNo: nat, messageSeq: nat, fragmentIndex: nat, fragmentCount: nat,
                                     messageBytes: nat, checksum: int, length: nat, crc: int)

  datatype Assembly = Assembly(messageSeq: nat, fragmentCount: nat, messageBytes: nat, checksum: int,
                               fragments: seq<Bytes>, prints: map<nat, Fingerprint>)

  datatype Assembler = Assembler(expectedSeq: nat, expectedMessage: nat, lastCompleted: nat,
                                 settled: map<nat, Fingerprint>, active: Option<Assembly>, faulted: bool)

  datatype FaultReason =
    | Terminated | MessageTooLarge | FragmentLimit | ConflictingDuplicate
    | PhysicalGap | MessageGap | FragmentGap | MetadataMismatch | ChecksumMismatch | LengthMismatch

  datatype Event =
    | Incomplete
    | Duplicate(ack: Option<nat>)
    | Complete(messageSeq: nat, bytes: Bytes)
    | Fault(reason: FaultReason)

  const INITIAL := Assembler(1, 1, 0, map[], None, false)

  /** What schema validation guarantees about a frame before the assembler sees it. */
  predicate ValidFrame(f: Frame) {
    && f.seqNo > 0 && f.messageSeq > 0
    && f.fragmentIndex < f.fragmentCount <= f.messageBytes
    && f.data != []
  }

  function Print(crc: Crc, f: Frame): Fingerprint {
    Fingerprint(f.seqNo, f.messageSeq, f.fragmentIndex, f.fragmentCount, f.messageBytes, f.checksum,
                |f.data|, crc(f.data))
  }

  function Stop(a: Assembler, reason: FaultReason): (Assembler, Event) {
    (a.(active := None, faulted := true), Fault(reason))
  }

  function Repeated(a: Assembler): Event {
    Duplicate(if a.lastCompleted > 0 then Some(a.lastCompleted) else None)
  }

  function Accept(crc: Crc, a: Assembler, f: Frame): (Assembler, Event) {
    if a.faulted then Stop(a, Terminated)
    else if f.messageBytes > MAX_MESSAGE_BYTES then Stop(a, FaultReason.MessageTooLarge)
    else if f.fragmentCount > MAX_FRAGMENTS then Stop(a, FragmentLimit)
    else if a.active.Some? && f.seqNo in a.active.value.prints then
      if a.active.value.prints[f.seqNo] == Print(crc, f) then (a, Repeated(a))
      else Stop(a, ConflictingDuplicate)
    else if f.seqNo in a.settled then
      if a.settled[f.seqNo] == Print(crc, f) then (a, Repeated(a)) else Stop(a, ConflictingDuplicate)
    else if f.seqNo < a.expectedSeq then (a, Repeated(a))
    else if f.seqNo > a.expectedSeq then Stop(a, PhysicalGap)
    else if f.messageSeq != a.expectedMessage then Stop(a, MessageGap)
    else Extend(crc, a, f)
  }

  function Held(a: Assembler): nat {
    if a.active.Some? then |a.active.value.fragments| else 0
  }

  function Grown(crc: Crc, a: Assembler, f: Frame): Assembly {
    var before := if a.active.Some? then a.active.value
                  else Assembly(f.messageSeq, f.fragmentCount, f.messageBytes, f.checksum, [], map[]);
    before.(fragments := before.fragments + [f.data], prints := before.prints[f.seqNo := Print(crc, f)])
  }

  /** The frame carries the expected number: start or extend the active assembly. */
  function Extend(crc: Crc, a: Assembler, f: Frame): (Assembler, Event) {
    if f.fragmentIndex != Held(a) then Stop(a, FragmentGap)
    else if a.active.Some? && (f.fragmentCount != a.active.value.fragmentCount
                               || f.messageBytes != a.active.value.messageBytes) then Stop(a, MetadataMismatch)
    else if a.active.Some? && f.checksum != a.active.value.checksum then Stop(a, ChecksumMismatch)
    else
      var now := Grown(crc, a, f);
      if |Flatten(now.fragments)| > now.messageBytes then Stop(a, LengthMismatch)
      else
        var moved := a.(expectedSeq := a.expectedSeq + 1, active := Some(now));
        if |now.fragments| < now.fragmentCount then (moved, Incomplete)
        else Finish(crc, moved, now)
  }

  function Finish(crc: Crc, a: Assembler, done: Assembly): (Assembler, Event) {
    var bytes := Flatten(done.fragments);
    if |bytes| != done.messageBytes then Stop(a, LengthMismatch)
    else if crc(bytes) != done.checksum then Stop(a, ChecksumMismatch)
    else
      (a.(settled := done.prints, active := None, lastCompleted := done.messageSeq,
          expectedMessage := a.expectedMessage + 1),
       Complete(done.messageSeq, bytes))
  }

  // ---------- agreement with a sender's history ----------

  /** The fingerprints of the first j frames of the message at index m, and nothing else. */
  ghost predicate PrintsOf(crc: Crc, ms: seq<Message>, m: nat, j: nat, prints: map<nat, Fingerprint>)
    requires m < |ms| && j <= |ms[m]|
  {
    forall s <- prints :: FirstSeq(ms, m) <= s < FirstSeq(ms, m) + j
                          && prints[s] == Print(crc, FrameAt(crc, ms, m, s - FirstSeq(ms, m)))
  }

  /** The assembly holds exactly the first j fragments of the message at index m. */
  ghost predicate Matches(crc: Crc, ms: seq<Message>, m: nat, j: nat, now: Assembly)
    requires m < |ms| && j <= |ms[m]|
  {
    && now.messageSeq == m + 1 && now.fragmentCount == |ms[m]|
    && now.messageBytes == |Flatten(ms[m])| && now.checksum == crc(Flatten(ms[m]))
    && now.fragments == ms[m][..j]
    && PrintsOf(crc, ms, m, j, now.prints)
  }

  /** The assembler holds k complete messages of `ms` and the first fragments of the next one. */
  ghost predicate Synced(crc: Crc, ms: seq<Message>, a: Assembler) {
    var k := a.lastCompleted;
    && !a.faulted
    && k <= |ms|
    && a.expectedMessage == k + 1
    && (if k == 0 then a.settled == map[] else PrintsOf(crc, ms, k - 1, |ms[k - 1]|, a.settled))
    && match a.active {
         case None => a.expectedSeq == FirstSeq(ms, k)
         case Some(now) =>
           && k < |ms|
           && 0 < |now.fragments| < |ms[k]|
           && a.expectedSeq == FirstSeq(ms, k) + |now.fragments|
           && Matches(crc, ms, k, |now.fragments|, now)
       }
  }

  lemma SyncedInitially(crc: Crc, ms: seq<Message>, a: Assembler)
    requires ms == [] && a == INITIAL
    ensures Synced(crc, ms, a)
  {
  }

  /** Reserving one more message never disturbs a receiver. */
  lemma SyncedAppend(crc: Crc, ms: seq<Message>, more: Message, a: Assembler)
    requires Synced(crc, ms, a)
    ensures Synced(crc, ms + [more], a)
  {
    var k := a.lastCompleted;
    FirstSeqAppend(ms, more, k);
    if k > 0 { PrintsAppend(crc, ms, more, k - 1, |ms[k - 1]|, a.settled); }
    if a.active.Some? { PrintsAppend(crc, ms, more, k, |a.active.value.fragments|, a.active.value.prints); }
  }

  lemma PrintsAppend(crc: Crc, ms: seq<Message>, more: Message, m: nat, j: nat, prints: map<nat, Fingerprint>)
    requires m < |ms| && j <= |ms[m]| && PrintsOf(crc, ms, m, j, prints)
    ensures PrintsOf(crc, ms + [more], m, j, prints)
  {
    FirstSeqAppend(ms, more, m);
  }

  lemma FlattenPrefix(chunks: seq<Bytes>, j: nat)
    requires j <= |chunks|
    ensures |Flatten(chunks[..j])| <= |Flatten(chunks)|
    decreases |chunks| - j
  {
    if j < |chunks| {
      FlattenPrefix(chunks, j + 1);
      assert chunks[..j + 1][..j] == chunks[..j];
    } else {
      assert chunks[..j] == chunks;
    }
  }

  lemma {:induction false} MessageCovers(chunks: seq<Bytes>)
    requires forall i :: 0 <= i < |chunks| ==> chunks[i] != []
    ensures |chunks| <= |Flatten(chunks)|
  {
    if chunks != [] { MessageCovers(chunks[..|chunks| - 1]); }
  }

  ghost predicate WithinLimits(message: Message) {
    |message| <= MAX_FRAGMENTS && |Flatten(message)| <= MAX_MESSAGE_BYTES
  }

  /** Every frame an encoder produces is schema-valid and, within the limits it keeps, passes the size checks. */
  lemma GenuineIsValid(crc: Crc, ms: seq<Message>, m: nat, i: nat)
    requires InTable(ms, m, i)
    ensures ValidFrame(FrameAt(crc, ms, m, i))
    ensures
      var f := FrameAt(crc, ms, m, i);
      WithinLimits(ms[m]) <==> f.messageBytes <= MAX_MESSAGE_BYTES && f.fragmentCount <= MAX_FRAGMENTS
  {
    MessageCovers(ms[m]);
    if m > 0 { FirstSeqMonotone(ms, 0, m); }
  }

  /** What accepting any frame of the history does, and it depends on its number alone: below the
      expected number a duplicate that changes nothing, above it a gap, at it one more fragment,
      which completes the message when it is the last. */
  lemma AcceptGenuine(crc: Crc, ms: seq<Message>, a: Assembler, m: nat, i: nat)
    requires Synced(crc, ms, a) && InTable(ms, m, i) && WithinLimits(ms[m])
    ensures var f := FrameAt(crc, ms, m, i); var (a', event) := Accept(crc, a, f);
            && (f.seqNo < a.expectedSeq ==> a' == a && event == Repeated(a))
            && (f.seqNo > a.expectedSeq ==> event == Fault(PhysicalGap))
            && (f.seqNo == a.expectedSeq ==>
                  && m == a.lastCompleted
                  && Synced(crc, ms, a')
                  && a'.expectedSeq == a.expectedSeq + 1
                  && (if i + 1 < |ms[m]| then event == Incomplete && a'.lastCompleted == a.lastCompleted
                      else event == Complete(m + 1, Flatten(ms[m])) && a'.lastCompleted == m + 1 && a'.active.None?))
  {
    var f := FrameAt(crc, ms, m, i);
    NumberPlacesFrame(crc, ms, a, m, i);
    if f.seqNo == a.expectedSeq {
      ExpectedIdentifiesFrame(crc, ms, a, m, i);
      AcceptExpected(crc, ms, a, i);
    }
  }

  /** The expected number is carried by exactly one frame of the history. */
  lemma ExpectedIdentifiesFrame(crc: Crc, ms: seq<Message>, a: Assembler, m: nat, i: nat)
    requires Synced(crc, ms, a) && InTable(ms, m, i) && FirstSeq(ms, m) + i == a.expectedSeq
    ensures m == a.lastCompleted && i == Held(a)
  {
    var k := a.lastCompleted;
    if k < |ms| { SeqIdentifiesFrame(ms, m, i, k, Held(a)); }
    else { FirstSeqMonotone(ms, m, k); }
  }

  /** A remembered number belongs to a frame already taken, remembered as it was sent. */
  lemma PrintsRemember(crc: Crc, ms: seq<Message>, k: nat, j: nat, prints: map<nat, Fingerprint>, m: nat, i: nat)
    requires k < |ms| && j <= |ms[k]| && PrintsOf(crc, ms, k, j, prints)
    requires InTable(ms, m, i) && FirstSeq(ms, m) + i in prints
    ensures FirstSeq(ms, m) + i < FirstSeq(ms, k) + j
    ensures prints[FirstSeq(ms, m) + i] == Print(crc, FrameAt(crc, ms, m, i))
  {
    SeqIdentifiesFrame(ms, m, i, k, FirstSeq(ms, m) + i - FirstSeq(ms, k));
  }

  lemma NumberPlacesFrame(crc: Crc, ms: seq<Message>, a: Assembler, m: nat, i: nat)
    requires Synced(crc, ms, a) && InTable(ms, m, i)
    ensures var s := FirstSeq(ms, m) + i;
            && (s in a.settled ==> s < a.expectedSeq && a.settled[s] == Print(crc, FrameAt(crc, ms, m, i)))
            && (a.active.Some? && s in a.active.value.prints ==>
                  s < a.expectedSeq && a.active.value.prints[s] == Print(crc, FrameAt(crc, ms, m, i)))
  {
    var s := FirstSeq(ms, m) + i;
    var k := a.lastCompleted;
    if s in a.settled {
      PrintsRemember(crc, ms, k - 1, |ms[k - 1]|, a.settled, m, i);
      assert FirstSeq(ms, k) == FirstSeq(ms, k - 1) + |ms[k - 1]|;
    }
    if a.active.Some? && s in a.active.value.prints {
      PrintsRemember(crc, ms, k, Held(a), a.active.value.prints, m, i);
    }
  }

  lemma ExpectedReachesExtend(crc: Crc, ms: seq<Message>, a: Assembler, i: nat)
    requires Synced(crc, ms, a) && InTable(ms, a.lastCompleted, i) && WithinLimits(ms[a.lastCompleted])
    requires i == Held(a)
    ensures var f := FrameAt(crc, ms, a.lastCompleted, i); Accept(crc, a, f) == Extend(crc, a, f)
  {
    NumberPlacesFrame(crc, ms, a, a.lastCompleted, i);
  }

  lemma AcceptExpected(crc: Crc, ms: seq<Message>, a: Assembler, i: nat)
    requires Synced(crc, ms, a) && InTable(ms, a.lastCompleted, i) && WithinLimits(ms[a.lastCompleted])
    requires i == Held(a)
    ensures var m := a.lastCompleted; var (a', event) := Accept(crc, a, FrameAt(crc, ms, m, i));
            && Synced(crc, ms, a')
            && a'.expectedSeq == a.expectedSeq + 1
            && (if i + 1 < |ms[m]| then event == Incomplete && a'.lastCompleted == m
                else event == Complete(m + 1, Flatten(ms[m])) && a'.lastCompleted == m + 1 && a'.active.None?)
  {
    var m := a.lastCompleted;
    var f := FrameAt(crc, ms, m, i);
    ExpectedReachesExtend(crc, ms, a, i);
    ExtendExpected(crc, ms, a, i);
    GrownSynced(crc, ms, a, i, Grown(crc, a, f));
  }

  /** With the expected fragment added, the assembler agrees with the history again. */
  lemma GrownSynced(crc: Crc, ms: seq<Message>, a: Assembler, i: nat, now: Assembly)
    requires Synced(crc, ms, a) && InTable(ms, a.lastCompleted, i) && i == Held(a)
    requires Matches(crc, ms, a.lastCompleted, i + 1, now)
    ensures var m := a.lastCompleted; var moved := a.(expectedSeq := a.expectedSeq + 1, active := Some(now));
            if i + 1 < |ms[m]| then Synced(crc, ms, moved)
            else var (a', event) := Finish(crc, moved, now);
                 Synced(crc, ms, a') && event == Complete(m + 1, Flatten(ms[m])) && a'.lastCompleted == m + 1
                 && a'.expectedSeq == a.expectedSeq + 1 && a'.active.None?
  {
    var m := a.lastCompleted;
    assert FirstSeq(ms, m + 1) == FirstSeq(ms, m) + |ms[m]|;
    assert ms[m][..|ms[m]|] == ms[m];
  }

  /** The expected frame passes every check and extends the assembly by its own fragment. */
  lemma ExtendExpected(crc: Crc, ms: seq<Message>, a: Assembler, i: nat)
    requires Synced(crc, ms, a) && InTable(ms, a.lastCompleted, i) && WithinLimits(ms[a.lastCompleted])
    requires i == Held(a)
    ensures var m := a.lastCompleted; var f := FrameAt(crc, ms, m, i); var now := Grown(crc, a, f);
            var moved := a.(expectedSeq := a.expectedSeq + 1, active := Some(now));
            && Extend(crc, a, f) == (if i + 1 < |ms[m]| then (moved, Incomplete) else Finish(crc, moved, now))
            && Matches(crc, ms, m, i + 1, now)
  {
    var m := a.lastCompleted;
    GrownMatches(crc, ms, a, i);
    FlattenPrefix(ms[m], i + 1);
  }

  lemma PrintsGrow(crc: Crc, ms: seq<Message>, m: nat, j: nat, prints: map<nat, Fingerprint>)
    requires InTable(ms, m, j) && PrintsOf(crc, ms, m, j, prints)
    ensures PrintsOf(crc, ms, m, j + 1, prints[FirstSeq(ms, m) + j := Print(crc, FrameAt(crc, ms, m, j))])
  {
  }

  lemma GrownMatches(crc: Crc, ms: seq<Message>, a: Assembler, i: nat)
    requires Synced(crc, ms, a) && InTable(ms, a.lastCompleted, i) && i == Held(a)
    ensures Matches(crc, ms, a.lastCompleted, i + 1, Grown(crc, a, FrameAt(crc, ms, a.lastCompleted, i)))
  {
    hide PrintsOf, Print;
    var chunks := ms[a.lastCompleted];
    var before := if a.active.Some? then a.active.value.prints else map[];
    assert PrintsOf(crc, ms, a.lastCompleted, 0, map[]) by { NoPrints(crc, ms, a.lastCompleted); }
    PrintsGrow(crc, ms, a.lastCompleted, i, before);
    assert chunks[..i + 1] == chunks[..i] + [chunks[i]];
  }

  lemma NoPrints(crc: Crc, ms: seq<Message>, m: nat)
    requires m < |ms|
    ensures PrintsOf(crc, ms, m, 0, map[])
  {
  }
}
