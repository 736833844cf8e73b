/** The replay buffer: a growing array with a released prefix, a cursor to the next batch to send,
    and compaction that runs only when at least half of a long array is released slots. */
module RelayBatchQueue {
  import opened Wrappers
  import opened RelayFrames

  const COMPACT_RELEASED_PREFIX_THRESHOLD: nat := 1024

  datatype Batch = Batch(messageSeq: nat, frames: seq<Frame>, outerBytes: nat, nextFrameIndex: nat)

  function SumBytes(batches: seq<Batch>): nat {
    if batches == [] then 0 else batches[0].outerBytes + SumBytes(batches[1..])
  }

  lemma {:induction false} SumBytesConcat(xs: seq<Batch>, ys: seq<Batch>)
    ensures SumBytes(xs + ys) == SumBytes(xs) + SumBytes(ys)
  {
    if xs == [] {
      assert xs + ys == ys;
    } else {
      assert (xs + ys)[1..] == xs[1..] + ys;
      SumBytesConcat(xs[1..], ys);
    }
  }

  /** Length of the longest prefix whose batches a cumulative acknowledgement covers. */
  function ReleaseCount(batches: seq<Batch>, ack: nat): (n: nat)
    ensures n <= |batches|
    ensures forall i :: 0 <= i < n ==> batches[i].messageSeq <= ack
    ensures n < |batches| ==> batches[n].messageSeq > ack
  {
    ReleaseFrom(batches, 0, ack)
  }

  function ReleaseFrom(batches: seq<Batch>, i: nat, ack: nat): (n: nat)
    requires i <= |batches|
    ensures i <= n <= |batches|
    ensures forall k :: i <= k < n ==> batches[k].messageSeq <= ack
    ensures n < |batches| ==> batches[n].messageSeq > ack
    decreases |batches| - i
  {
    if i < |batches| && batches[i].messageSeq <= ack then ReleaseFrom(batches, i + 1, ack) else i
  }

  lemma SumBytesOneMore(batches: seq<Batch>, n: nat)
    requires n < |batches|
    ensures SumBytes(batches[..n + 1]) == SumBytes(batches[..n]) + batches[n].outerBytes
  {
    assert batches[..n + 1] == batches[..n] + [batches[n]];
    SumBytesConcat(batches[..n], [batches[n]]);
  }

  function Rewound(batches: seq<Batch>): seq<Batch> {
    seq(|batches|, i requires 0 <= i < |batches| => batches[i].(nextFrameIndex := 0))
  }

  /** From `head` on, the slots hold exactly these batches. */
  ghost predicate Holds(slots: seq<Option<Batch>>, head: nat, batches: seq<Batch>) {
    head + |batches| == |slots| &&
    forall i :: head <= i < |slots| ==> slots[i] == Some(batches[i - head])
  }

  function Values(slots: seq<Option<Batch>>): (batches: seq<Batch>)
    requires forall i :: 0 <= i < |slots| ==> slots[i].Some?
    ensures |batches| == |slots|
    ensures forall i :: 0 <= i < |slots| ==> Some(batches[i]) == slots[i]
  {
    seq(|slots|, i requires 0 <= i < |slots| => slots[i].value)
  }

  class BatchQueue {
    var storage: seq<Option<Batch>>
    var headIndex: nat
    var nextUnsentIndex: nat
    /** Batches ever released, and slots ever moved by compaction. */
    ghost var released: nat
    ghost var copied: nat

    ghost predicate Valid()
      reads this
    {
      && headIndex <= nextUnsentIndex <= |storage|
      && (forall i :: 0 <= i < headIndex ==> storage[i].None?)
      && (forall i :: headIndex <= i < |storage| ==> storage[i].Some?)
      && (headIndex < COMPACT_RELEASED_PREFIX_THRESHOLD || headIndex * 2 < |storage|)
      && copied + headIndex <= released
    }

    ghost function Contents(): (batches: seq<Batch>)
      requires Valid()
      reads this
      ensures |batches| == |storage| - headIndex
      ensures Holds(storage, headIndex, batches)
    {
      Values(storage[headIndex..])
    }

    ghost function Cursor(): (c: nat)
      requires Valid()
      reads this
      ensures c <= |Contents()|
    {
      nextUnsentIndex - headIndex
    }

    constructor ()
      ensures Valid() && Contents() == [] && Cursor() == 0
    {
      storage, headIndex, nextUnsentIndex := [], 0, 0;
      released, copied := 0, 0;
    }

    function Oldest(): (r: Option<Batch>)
      requires Valid()
      reads this
      ensures r == if Contents() == [] then None else Some(Contents()[0])
    {
      if headIndex < |storage| then storage[headIndex] else None
    }

    function NextUnsent(): (r: Option<Batch>)
      requires Valid()
      reads this
      ensures r == if Cursor() == |Contents()| then None else Some(Contents()[Cursor()])
    {
      if nextUnsentIndex < |storage| then storage[nextUnsentIndex] else None
    }

    function ActiveCount(): (n: nat)
      requires Valid()
      reads this
      ensures n == |Contents()|
    {
      |storage| - headIndex
    }

    /** Released slots never dominate: the array stays within twice its live part, or within 1024
        slots of it, and compaction has moved at most as many slots as batches were released. */
    function RetainedStorageSlots(): (n: nat)
      requires Valid()
      reads this
      ensures n < ActiveCount() + (if ActiveCount() > COMPACT_RELEASED_PREFIX_THRESHOLD then ActiveCount()
                                   else COMPACT_RELEASED_PREFIX_THRESHOLD)
      ensures copied <= released
    {
      |storage|
    }

    /** Released batches are dropped at once: only live batches are still referenced. */
    method RetainedBatchReferenceCount() returns (count: nat)
      requires Valid()
      ensures count == |Contents()|
    {
      count := 0;
      for i := 0 to |storage|
        invariant count == if i <= headIndex then 0 else i - headIndex
      {
        if storage[i].Some? { count := count + 1; }
      }
    }

    method RetainedPayloadBytes() returns (bytes: nat)
      requires Valid()
      ensures bytes == SumBytes(Contents())
    {
      bytes := 0;
      for i := 0 to |storage|
        invariant bytes == if i <= headIndex then 0 else SumBytes(Contents()[..i - headIndex])
      {
        if storage[i].Some? {
          SumBytesOneMore(Contents(), i - headIndex);
          bytes := bytes + storage[i].value.outerBytes;
        }
      }
      assert Contents()[..|storage| - headIndex] == Contents();
    }

    method Append(batch: Batch)
      requires Valid()
      modifies this
      ensures Valid()
      ensures Contents() == old(Contents()) + [batch]
      ensures Cursor() == old(Cursor())
      ensures released == old(released) && copied == old(copied)
    {
      storage := storage + [Some(batch)];
    }

    /** The protocol's own increment of the batch that `nextUnsent` returned. */
    method CountFrameSent()
      requires Valid() && Cursor() < |Contents()|
      modifies this
      ensures Valid()
      ensures var b := old(Contents())[old(Cursor())];
              Contents() == old(Contents())[old(Cursor()) := b.(nextFrameIndex := b.nextFrameIndex + 1)]
      ensures Cursor() == old(Cursor())
      ensures released == old(released) && copied == old(copied)
    {
      var batch := storage[nextUnsentIndex].value;
      storage := storage[nextUnsentIndex := Some(batch.(nextFrameIndex := batch.nextFrameIndex + 1))];
    }

    method AdvanceUnsent()
      requires Valid()
      modifies this
      ensures Valid()
      ensures Contents() == old(Contents())
      ensures Cursor() == if old(Cursor()) < |old(Contents())| then old(Cursor()) + 1 else old(Cursor())
      ensures released == old(released) && copied == old(copied)
    {
      if nextUnsentIndex < |storage| { nextUnsentIndex := nextUnsentIndex + 1; }
    }

    method ResetReplay()
      requires Valid()
      modifies this
      ensures Valid()
      ensures Contents() == Rewound(old(Contents())) && Cursor() == 0
      ensures released == old(released) && copied == old(copied)
    {
      for index := headIndex to |storage|
        invariant Valid() && headIndex == old(headIndex) && |storage| == old(|storage|)
        invariant released == old(released) && copied == old(copied)
        invariant forall i :: headIndex <= i < |storage| ==>
          storage[i] == if i < index then Some(old(storage)[i].value.(nextFrameIndex := 0)) else old(storage)[i]
      {
        if storage[index].Some? {
          storage := storage[index := Some(storage[index].value.(nextFrameIndex := 0))];
        }
      }
      nextUnsentIndex := headIndex;
    }

    method ReleaseThrough(ack: nat) returns (releasedBytes: nat, releasedCount: nat)
      requires Valid()
      modifies this
      ensures Valid()
      ensures releasedCount == ReleaseCount(old(Contents()), ack)
      ensures releasedBytes == SumBytes(old(Contents())[..releasedCount])
      ensures Contents() == old(Contents())[releasedCount..]
      ensures Cursor() == if old(Cursor()) < releasedCount then 0 else old(Cursor()) - releasedCount
      ensures released == old(released) + releasedCount
    {
      ghost var before := Contents();
      releasedBytes, releasedCount := ReleasePrefix(ack, before);
      nextUnsentIndex := if nextUnsentIndex < headIndex then headIndex else nextUnsentIndex;
      CompactReleasedPrefix(before[releasedCount..]);
    }

    /** The release loop: empties covered slots from the head on. */
    method ReleasePrefix(ack: nat, ghost before: seq<Batch>) returns (releasedBytes: nat, releasedCount: nat)
      requires Holds(storage, headIndex, before)
      requires forall i :: 0 <= i < headIndex ==> storage[i].None?
      modifies this
      ensures releasedCount == ReleaseCount(before, ack) && releasedBytes == SumBytes(before[..releasedCount])
      ensures headIndex == old(headIndex) + releasedCount && |storage| == old(|storage|)
      ensures forall i :: 0 <= i < headIndex ==> storage[i].None?
      ensures Holds(storage, headIndex, before[releasedCount..])
      ensures nextUnsentIndex == old(nextUnsentIndex)
      ensures released == old(released) + releasedCount && copied == old(copied)
    {
      releasedBytes, releasedCount := 0, 0;
      while headIndex < |storage|
        invariant headIndex == old(headIndex) + releasedCount <= |storage| == old(|storage|)
        invariant nextUnsentIndex == old(nextUnsentIndex)
        invariant forall i :: 0 <= i < headIndex ==> storage[i].None?
        invariant forall i :: headIndex <= i < |storage| ==> storage[i] == Some(before[i - old(headIndex)])
        invariant releasedBytes == SumBytes(before[..releasedCount])
        invariant ReleaseFrom(before, releasedCount, ack) == ReleaseFrom(before, 0, ack)
        invariant released == old(released) + releasedCount && copied == old(copied)
      {
        var batch := storage[headIndex].value;
        if batch.messageSeq > ack { break; }
        SumBytesOneMore(before, releasedCount);
        releasedBytes := releasedBytes + batch.outerBytes;
        releasedCount := releasedCount + 1;
        storage := storage[headIndex := None];
        headIndex := headIndex + 1;
        released := released + 1;
      }
    }

    method Clear()
      requires Valid()
      modifies this
      ensures Valid() && Contents() == [] && Cursor() == 0
      ensures released == old(released) && copied == old(copied)
    {
      storage := [];
      headIndex := 0;
      nextUnsentIndex := 0;
    }

    /** Restores the bound on released slots; each copied slot is paid for by a released one. */
    method CompactReleasedPrefix(ghost live: seq<Batch>)
      requires headIndex <= nextUnsentIndex <= |storage|
      requires forall i :: 0 <= i < headIndex ==> storage[i].None?
      requires Holds(storage, headIndex, live)
      requires copied + headIndex <= released
      modifies this
      ensures Valid() && Contents() == live
      ensures Cursor() == old(nextUnsentIndex - headIndex)
      ensures released == old(released)
      ensures copied == old(copied)
              || (copied == old(copied) + |live| && |live| <= old(headIndex) && |storage| == |live|)
    {
      if headIndex < COMPACT_RELEASED_PREFIX_THRESHOLD || headIndex * 2 < |storage| {
        return;
      }
      var releasedPrefix := headIndex;
      storage := storage[releasedPrefix..];
      copied := copied + |storage|;
      nextUnsentIndex := if nextUnsentIndex > releasedPrefix then nextUnsentIndex - releasedPrefix else 0;
      headIndex := 0;
    }
  }
}
