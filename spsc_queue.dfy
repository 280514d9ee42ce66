/**
 * The single-producer/single-consumer ring buffer `SPSCQueue<T, QueueSize>`:
 * a fixed array of `QueueSize` slots with a read index `head` and a write
 * index `tail`, both advanced by masking with `QueueSize - 1`.
 * The atomics and their memory orders are not modelled: each method is one
 * sequential step.
 */
module Spsc {
  import opened Arith

  /** `a & b` on unsigned integers, bit by bit from the least significant end. */
  function BitAnd(a: nat, b: nat): (r: nat)
    ensures r <= a && r <= b
  {
    if a == 0 || b == 0 then 0
    else (if a % 2 == 1 && b % 2 == 1 then 1 else 0) + 2 * BitAnd(a / 2, b / 2)
  }

  /** 1, 2, 4, 8, ... */
  predicate IsPowerOfTwo(n: nat)
  {
    n == 1 || (n >= 2 && n % 2 == 0 && IsPowerOfTwo(n / 2))
  }

  lemma {:induction false} DivModSplit(x: nat, k: nat)
    requires k >= 1
    ensures x % (2 * k) == x % 2 + 2 * ((x / 2) % k)
  {
    var q, r := (x / 2) / k, (x / 2) % k;
    assert x / 2 == k * q + r;
    assert x == 2 * (x / 2) + x % 2;
    assert x == (2 * k) * q + (2 * r + x % 2);
    DivModUnique(x, 2 * k, q, 2 * r + x % 2);
  }

  /** For a power of two `n`, masking with `n - 1` is reduction modulo `n`. */
  lemma {:induction false} MaskIsMod(x: nat, n: nat)
    requires IsPowerOfTwo(n)
    ensures BitAnd(x, n - 1) == x % n
  {
    if n == 1 {
    } else if x == 0 {
    } else {
      var k := n / 2;
      assert (n - 1) % 2 == 1 && (n - 1) / 2 == k - 1;
      MaskIsMod(x / 2, k);
      DivModSplit(x, k);
    }
  }

  lemma {:induction false} SuccessorMod(index: nat, n: nat)
    requires n >= 1
    ensures index < n ==> (index + 1) % n == if index + 1 == n then 0 else index + 1
  {
    if index < n {
      if index + 1 == n {
        DivModUnique(index + 1, n, 1, 0);
      } else {
        DivModUnique(index + 1, n, 0, index + 1);
      }
    }
  }

  /** `kIndexMask`. */
  function IndexMask(queueSize: nat): nat
    requires queueSize >= 1
  {
    queueSize - 1
  }

  /** `getNextIndex`: the slot after `index`, wrapping to 0 after the last one. */
  function NextIndex(index: nat, queueSize: nat): (r: nat)
    requires IsPowerOfTwo(queueSize)
    ensures r == (index + 1) % queueSize
    ensures index < queueSize ==> r == if index + 1 == queueSize then 0 else index + 1
  {
    MaskIsMod(index + 1, queueSize);
    SuccessorMod(index, queueSize);
    BitAnd(index + 1, IndexMask(queueSize))
  }

  /** The slots from `h` up to (not including) `t`, going round the end of `s`. */
  function Window<T>(s: seq<T>, h: nat, t: nat): seq<T>
    requires h < |s| && t < |s|
  {
    if h <= t then s[h..t] else s[h..] + s[..t]
  }

  /** A window holds at most all slots but one, and is empty exactly when its ends meet. */
  lemma {:induction false} WindowSize<T>(s: seq<T>, h: nat, t: nat)
    requires h < |s| && t < |s|
    ensures |Window(s, h, t)| == (t - h + |s|) % |s|
    ensures |Window(s, h, t)| <= |s| - 1
    ensures Window(s, h, t) == [] <==> h == t
  {
    if h > t {
      assert (t - h + |s|) % |s| == t - h + |s|;
    } else {
      assert (t - h + |s|) % |s| == t - h;
    }
  }

  /** Writing at the tail slot and stepping the tail appends to the window, unless the step would meet the head. */
  lemma {:induction false} WindowPush<T>(s: seq<T>, h: nat, t: nat, x: T)
    requires h < |s| && t < |s|
    requires (if t + 1 == |s| then 0 else t + 1) != h
    ensures Window(s[t := x], h, if t + 1 == |s| then 0 else t + 1) == Window(s, h, t) + [x]
  {
    var s' := s[t := x];
    if h <= t {
      if t + 1 < |s| {
        assert s'[h..t + 1] == s[h..t] + [x];
      } else {
        assert s'[h..] + s'[..0] == s[h..t] + [x];
      }
    } else {
      assert s'[h..] == s[h..];
      assert s'[..t + 1] == s[..t] + [x];
    }
  }

  /** Stepping the head past a non-empty window drops its front element, which is the head slot. */
  lemma {:induction false} WindowPop<T>(s: seq<T>, h: nat, t: nat)
    requires h < |s| && t < |s| && h != t
    ensures Window(s, h, t) != [] && Window(s, h, t)[0] == s[h]
    ensures Window(s, if h + 1 == |s| then 0 else h + 1, t) == Window(s, h, t)[1..]
  {
    if h < t {
    } else if h + 1 == |s| {
      assert s[h..] == [s[h]];
      assert s[..t] == s[0..t];
    } else {
      assert s[h..][1..] == s[h + 1..];
    }
  }

  /**
   * `SPSCQueue<T, QueueSize>`. `buffer` is `_mDataBuffer`, `head` is `_mHead`
   * (next slot to read), `tail` is `_mTail` (next slot to write).
   */
  class SpscQueue<T> {
    const size: nat
    const buffer: array<T>
    var head: nat
    var tail: nat

    ghost predicate Valid()
      reads this
    {
      IsPowerOfTwo(size) && buffer.Length == size && head < size && tail < size
    }

    /** The queued elements, oldest first: the slots from `head` up to `tail`. */
    ghost function Contents(): seq<T>
      reads this, buffer
      requires Valid()
    {
      Window(buffer[..], head, tail)
    }

    /** Full: one more write would make `tail` meet `head`. */
    ghost predicate IsFull()
      reads this
      requires Valid()
    {
      NextIndex(tail, size) == head
    }

    /** A queue of `queueSize` default-constructed slots (`blank`), both indices at 0. */
    constructor (queueSize: nat, blank: T)
      requires IsPowerOfTwo(queueSize)
      ensures Valid() && fresh(buffer)
      ensures size == queueSize && head == 0 && tail == 0
      ensures Contents() == []
    {
      size := queueSize;
      buffer := new T[queueSize](_ => blank);
      head, tail := 0, 0;
    }

    /** At most `QueueSize - 1` elements are ever held; full means exactly that many. */
    lemma {:induction false} Capacity()
      requires Valid()
      ensures |Contents()| <= size - 1
      ensures IsFull() <==> |Contents()| == size - 1
    {
      WindowSize(buffer[..], head, tail);
    }

    /** `IsEmpty`: the indices meet. */
    method IsEmpty() returns (empty: bool)
      requires Valid()
      ensures empty <==> head == tail
      ensures empty <==> Contents() == []
    {
      WindowSize(buffer[..], head, tail);
      empty := head == tail;
    }

    /**
     * `Enqueue` (both overloads): write `x` into the slot at `tail`, then
     * advance `tail`. The source spins while the queue is full; here the
     * caller must not enqueue on a full queue.
     */
    method Enqueue(x: T)
      requires Valid() && !IsFull()
      modifies this`tail, buffer
      ensures Valid()
      ensures buffer[old(tail)] == x
      ensures forall i :: 0 <= i < size && i != old(tail) ==> buffer[i] == old(buffer[i])
      ensures tail == NextIndex(old(tail), size) && head == old(head)
      ensures Contents() == old(Contents()) + [x]
    {
      var writeIndex := tail;
      var nextWriteIndex := NextIndex(writeIndex, size);
      ghost var before := buffer[..];
      buffer[writeIndex] := x;
      assert buffer[..] == before[writeIndex := x];
      WindowPush(before, head, writeIndex, x);
      tail := nextWriteIndex;
    }

    /**
     * `Dequeue`: on an empty queue report false and leave `data` (passed in as
     * `prev`) and the indices alone; otherwise hand out the slot at `head` and
     * advance `head`.
     */
    method Dequeue(prev: T) returns (ok: bool, data: T)
      requires Valid()
      modifies this`head
      ensures Valid() && tail == old(tail) && buffer[..] == old(buffer[..])
      ensures ok <==> old(Contents()) != []
      ensures !ok ==> data == prev && head == old(head)
      ensures ok ==> data == old(buffer[head]) && head == NextIndex(old(head), size)
      ensures ok ==> data == old(Contents())[0] && Contents() == old(Contents())[1..]
    {
      var empty := IsEmpty();
      if empty {
        return false, prev;
      }
      var readIndex := head;
      data := buffer[readIndex];
      WindowPop(buffer[..], readIndex, tail);
      head := NextIndex(readIndex, size);
      ok := true;
    }
  }

  /** FIFO through a fresh queue: two elements come out in the order they went in. */
  method FifoScenario<T>(blank: T, x: T, y: T) returns (first: T, second: T)
    ensures first == x && second == y
  {
    var q := new SpscQueue<T>(4, blank);
    assert IsPowerOfTwo(2);
    q.Enqueue(x);
    q.Enqueue(y);
    var ok;
    ok, first := q.Dequeue(blank);
    ok, second := q.Dequeue(blank);
  }
}
