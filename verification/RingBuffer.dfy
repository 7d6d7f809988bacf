/** The fixed-size ring buffer of a channel end (lib/ring_buffer.h) is a bounded first-in first-out queue. It stands
    alone: the channel ends (Chanend.dfy) keep a buffer as the sequence of its contents, and the contracts here are the
    sequence operations they use on it: append, drop from the front, index, length. */
module RingBuffer {
  class RingBuffer<T(0)> {
    const buf: array<T>
    var writeIdx: nat
    var readIdx: nat
    var numEntries: nat

    ghost predicate Valid()
      reads this
    {
      && buf.Length > 0 && readIdx < buf.Length && numEntries <= buf.Length
      && writeIdx == Slot(readIdx, numEntries, buf.Length)
    }

    /** The entries, oldest first. */
    ghost function Contents(): (s: seq<T>)
      requires Valid()
      reads this, buf
      ensures |s| == numEntries
    {
      seq(numEntries, k requires 0 <= k < numEntries reads this, buf requires Valid() =>
        buf[Slot(readIdx, k, buf.Length)])
    }

    constructor (size: nat)
      requires size > 0
      ensures Valid() && fresh(buf) && buf.Length == size && Contents() == []
    {
      buf := new T[size];
      writeIdx, readIdx, numEntries := 0, 0, 0;
    }

    method PushBack(t: T)
      requires Valid() && numEntries < buf.Length
      modifies this, buf
      ensures Valid() && Contents() == old(Contents()) + [t]
    {
      buf[writeIdx] := t;
      SlotIs(writeIdx, 1, buf.Length);
      writeIdx := (writeIdx + 1) % buf.Length;
      numEntries := numEntries + 1;
    }

    /** `pop_front`, of one entry or of several. */
    method PopFront(num: nat)
      requires Valid() && num <= numEntries
      modifies this
      ensures Valid() && Contents() == old(Contents())[num..]
    {
      SlotIs(readIdx, num, buf.Length);
      readIdx := (readIdx + num) % buf.Length;
      numEntries := numEntries - num;
    }

    /** `operator[]`, and `front` for index 0. */
    method At(idx: nat) returns (t: T)
      requires Valid() && idx < numEntries
      ensures t == Contents()[idx]
    {
      SlotIs(readIdx, idx, buf.Length);
      return buf[(readIdx + idx) % buf.Length];
    }

    method Remaining() returns (n: nat)
      requires Valid()
      ensures n == buf.Length - |Contents()|
    {
      return buf.Length - numEntries;
    }

    method Clear()
      requires Valid()
      modifies this
      ensures Valid() && Contents() == []
    {
      readIdx := writeIdx;
      numEntries := 0;
    }
  }

  /** The place of the k-th entry after `from` in a ring of n. */
  function Slot(from: nat, k: nat, n: nat): nat
    requires from < n && k <= n
  {
    if from + k < n then from + k else from + k - n
  }

  lemma SlotIs(from: nat, k: nat, n: nat)
    requires from < n && k <= n
    ensures (from + k) % n == Slot(from, k, n) < n
  {
    if from + k < n { SmallMod(from + k, 0, n); } else { SmallMod(from + k - n, 1, n); }
  }

  lemma SmallMod(r: nat, q: nat, n: nat)
    requires r < n && q <= 1
    ensures (r + q * n) % n == r
  {
  }
}
