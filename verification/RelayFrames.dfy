/** Messages, the physical frames they are encoded into, and the numbering of both.

    A sender's whole history is the sequence of messages it reserved.  Message number k (counted
    from 1) occupies the physical numbers `FirstSeq(ms, k - 1) .. FirstSeq(ms, k)`. */
module RelayFrames {
  import opened Wrappers

  type Byte = x: int | 0 <= x < 256
  type Bytes = seq<Byte>

  /** crc32WireBytes, of which only determinism is used. */
  type Crc = Bytes -> int

  const MAX_FRAGMENTS: nat := 64
  const MAX_MESSAGE_BYTES: nat := 16 * 1024 * 1024

  datatype Frame = Frame(seqNo: nat, messageSeq: nat, fragmentIndex: nat, fragmentCount: nat,
                         messageBytes: nat, checksum: int, data: Bytes)

  /** A message as the encoder cut it: every fragment is non-empty. */
  type Message = ms: seq<Bytes> | Fragmented(ms) witness [[0]]

  ghost predicate Fragmented(chunks: seq<Bytes>) {
    chunks != [] && forall i :: 0 <= i < |chunks| ==> chunks[i] != []
  }

  function Flatten(chunks: seq<Bytes>): Bytes {
    if chunks == [] then [] else Flatten(chunks[..|chunks| - 1]) + chunks[|chunks| - 1]
  }

  /** The slicing loop of the encoder: `budget` decoded bytes a frame, the last one shorter. */
  function Split(bytes: Bytes, budget: nat): (chunks: seq<Bytes>)
    requires budget > 0
    ensures bytes != [] ==> Fragmented(chunks)
    decreases |bytes|
  {
    if |bytes| == 0 then []
    else if |bytes| <= budget then [bytes]
    else [bytes[..budget]] + Split(bytes[budget..], budget)
  }

  lemma FlattenCons(head: Bytes, tail: seq<Bytes>)
    ensures Flatten([head] + tail) == head + Flatten(tail)
  {
    if tail == [] {
      assert [head] + tail == [head];
      assert [head][..0] == [];
    } else {
      var init := tail[..|tail| - 1];
      FlattenCons(head, init);
      assert ([head] + tail)[..|tail|] == [head] + init;
      assert head + (Flatten(init) + tail[|tail| - 1]) == (head + Flatten(init)) + tail[|tail| - 1];
    }
  }

  lemma {:induction false} SplitFlatten(bytes: Bytes, budget: nat)
    requires budget > 0
    ensures Flatten(Split(bytes, budget)) == bytes
    ensures forall i :: 0 <= i < |Split(bytes, budget)| ==> |Split(bytes, budget)[i]| <= budget
    decreases |bytes|
  {
    if 0 < |bytes| <= budget {
      assert [bytes][..0] == [];
    } else if |bytes| > budget {
      SplitFlatten(bytes[budget..], budget);
      FlattenCons(bytes[..budget], Split(bytes[budget..], budget));
    }
  }

  datatype EncodeError = EmptyMessage | MessageTooLarge | FragmentLimitExceeded | EnvelopeTooLarge

  /** The encoder, given the decoded bytes a frame may carry once its envelope is measured. */
  function Encode(bytes: Bytes, budget: nat): (r: Result<Message, EncodeError>)
    ensures r.Ok? ==> Flatten(r.value) == bytes && |r.value| <= MAX_FRAGMENTS && |bytes| <= MAX_MESSAGE_BYTES
    ensures r.Err? <==> bytes == [] || |bytes| > MAX_MESSAGE_BYTES || budget == 0
                        || |Split(bytes, budget)| > MAX_FRAGMENTS
  {
    if bytes == [] then Err(EmptyMessage)
    else if |bytes| > MAX_MESSAGE_BYTES then Err(MessageTooLarge)
    else if budget < 1 then Err(EnvelopeTooLarge)
    else
      var chunks := Split(bytes, budget);
      SplitFlatten(bytes, budget);
      if |chunks| > MAX_FRAGMENTS then Err(FragmentLimitExceeded) else Ok(chunks)
  }

  lemma {:induction false} SplitEven(bytes: Bytes, budget: nat, n: nat)
    requires budget > 0
    ensures
      var chunks := Split(bytes, budget);
      && (forall i :: 0 <= i < |chunks| - 1 ==> |chunks[i]| == budget)
      && (|chunks| > n <==> |bytes| > n * budget)
    decreases |bytes|
  {
    if |bytes| > budget {
      SplitEven(bytes[budget..], budget, if n == 0 then 0 else n - 1);
      if n > 0 { assert n * budget == (n - 1) * budget + budget; }
    } else if n > 0 {
      assert n * budget >= budget by { assert n * budget == (n - 1) * budget + budget; }
    }
  }

  /** How a message is cut: into fragments of exactly the budget, the last one shorter, which are put together
      again to the message; it fails exactly on empty messages, on those above the limit, and where the
      greatest number of fragments would not hold them. */
  lemma EncodeCuts(bytes: Bytes, budget: nat)
    ensures Encode(bytes, budget).Ok? <==>
              0 < |bytes| <= MAX_MESSAGE_BYTES && |bytes| <= MAX_FRAGMENTS * budget
    ensures Encode(bytes, budget).Ok? ==>
              var chunks := Encode(bytes, budget).value;
              && Flatten(chunks) == bytes
              && (forall i :: 0 <= i < |chunks| - 1 ==> |chunks[i]| == budget)
              && 0 < |chunks[|chunks| - 1]| <= budget
  {
    if budget > 0 {
      SplitEven(bytes, budget, MAX_FRAGMENTS);
      SplitFlatten(bytes, budget);
    }
  }

  // ---------- numbering ----------

  /** Physical number of the first frame of the message at index k. */
  function FirstSeq(ms: seq<Message>, k: nat): nat
    requires k <= |ms|
  {
    if k == 0 then 1 else FirstSeq(ms, k - 1) + |ms[k - 1]|
  }

  ghost predicate InTable(ms: seq<Message>, m: nat, i: nat) {
    m < |ms| && i < |ms[m]|
  }

  function FrameAt(crc: Crc, ms: seq<Message>, m: nat, i: nat): Frame
    requires m < |ms| && i < |ms[m]|
  {
    Frame(FirstSeq(ms, m) + i, m + 1, i, |ms[m]|, |Flatten(ms[m])|, crc(Flatten(ms[m])), ms[m][i])
  }

  /** The frames the encoder cuts for one message, numbered from the sender's counters. */
  function EncodeFrames(crc: Crc, firstPhysicalSeq: nat, messageSeq: nat, m: Message): (fs: seq<Frame>)
    ensures |fs| == |m|
    ensures forall i :: 0 <= i < |fs| ==> fs[i].seqNo == firstPhysicalSeq + i && fs[i].fragmentIndex == i
  {
    seq(|m|, i requires 0 <= i < |m| =>
      Frame(firstPhysicalSeq + i, messageSeq, i, |m|, |Flatten(m)|, crc(Flatten(m)), m[i]))
  }

  function FramesOf(crc: Crc, ms: seq<Message>, m: nat): (fs: seq<Frame>)
    requires m < |ms|
    ensures |fs| == |ms[m]|
    ensures forall i :: 0 <= i < |fs| ==> fs[i] == FrameAt(crc, ms, m, i)
  {
    EncodeFrames(crc, FirstSeq(ms, m), m + 1, ms[m])
  }

  ghost predicate Genuine(crc: Crc, ms: seq<Message>, f: Frame) {
    exists m: nat, i: nat :: InTable(ms, m, i) && f == FrameAt(crc, ms, m, i)
  }

  lemma {:induction false} FirstSeqMonotone(ms: seq<Message>, k: nat, l: nat)
    requires k < l <= |ms|
    ensures FirstSeq(ms, k) + |ms[k]| <= FirstSeq(ms, l)
    decreases l
  {
    if k < l - 1 { FirstSeqMonotone(ms, k, l - 1); }
  }

  lemma {:induction false} FirstSeqAppend(ms: seq<Message>, more: Message, k: nat)
    requires k <= |ms|
    ensures FirstSeq(ms + [more], k) == FirstSeq(ms, k)
  {
    if k > 0 { FirstSeqAppend(ms, more, k - 1); }
  }

  lemma FrameAtAppend(crc: Crc, ms: seq<Message>, more: Message, m: nat, i: nat)
    requires InTable(ms, m, i)
    ensures InTable(ms + [more], m, i)
    ensures FrameAt(crc, ms + [more], m, i) == FrameAt(crc, ms, m, i)
  {
    FirstSeqAppend(ms, more, m);
  }

  lemma GenuineAppend(crc: Crc, ms: seq<Message>, more: Message, f: Frame)
    requires Genuine(crc, ms, f)
    ensures Genuine(crc, ms + [more], f)
  {
    var m: nat, i: nat :| InTable(ms, m, i) && f == FrameAt(crc, ms, m, i);
    FrameAtAppend(crc, ms, more, m, i);
  }

  /** A physical number determines its frame: the numbering never reuses a number. */
  lemma SeqIdentifiesFrame(ms: seq<Message>, m: nat, i: nat, m': nat, i': nat)
    requires InTable(ms, m, i) && InTable(ms, m', i')
    ensures FirstSeq(ms, m) + i == FirstSeq(ms, m') + i' <==> m == m' && i == i'
    ensures m < m' ==> FirstSeq(ms, m) + i < FirstSeq(ms, m') + i'
  {
    if m < m' { FirstSeqMonotone(ms, m, m'); }
    if m' < m { FirstSeqMonotone(ms, m', m); }
  }

  function BytesOf(ms: seq<Message>): (bs: seq<Bytes>)
    ensures |bs| == |ms|
    ensures forall i :: 0 <= i < |ms| ==> bs[i] == Flatten(ms[i])
  {
    seq(|ms|, i requires 0 <= i < |ms| => Flatten(ms[i]))
  }
}
