/**
 * `ThreadScopedQueueManager` and `FastLogger`: the registry of per-thread
 * message queues, the level filter that decides what is enqueued, and the
 * drain that turns every queued record into one line of the log file.
 *
 * The file is the sequence `output` of lines written so far; the wall clock
 * is a parameter `clock` giving the timestamp text of the `n`-th line.
 */
module Logging {
  import opened Bytes
  import opened Args
  import opened LogLevels
  import opened LogFormatters
  import opened LogMessages
  import opened Spsc

  /** `MessageQueue`: the queue a `ThreadScopedQueue` owns, standing for it. */
  type MessageQueue = SpscQueue<LogMessage>

  // ---------------------------------------------------------------- the queue registry

  /** `ThreadScopedQueueManager`: the set of queues the drain visits. */
  class QueueManager {
    var queues: set<MessageQueue>

    constructor ()
      ensures queues == {}
    {
      queues := {};
    }

    /** `RegisterScopedQueue`: insert into the set; inserting a member changes nothing. */
    method RegisterScopedQueue(q: MessageQueue)
      modifies this
      ensures queues == old(queues) + {q}
      ensures q in old(queues) ==> queues == old(queues)
    {
      queues := queues + {q};
    }

    /** `UnRegisterThreadScopedQueue`: erase from the set (the wait for a non-empty queue is left out). */
    method UnRegisterThreadScopedQueue(q: MessageQueue)
      modifies this
      ensures queues == old(queues) - {q}
      ensures q !in old(queues) ==> queues == old(queues)
    {
      queues := queues - {q};
    }

    /**
     * `ForEachQueue`: the order in which the callback is handed the queues,
     * every registered queue exactly once, in no promised order.
     */
    method ForEachQueue() returns (order: seq<MessageQueue>)
      ensures forall q :: q in order <==> q in queues
      ensures forall i, j :: 0 <= i < j < |order| ==> order[i] != order[j]
    {
      var remaining := queues;
      order := [];
      while remaining != {}
        invariant remaining <= queues
        invariant forall q :: q in order <==> q in queues && q !in remaining
        invariant forall i, j :: 0 <= i < j < |order| ==> order[i] != order[j]
        decreases remaining
      {
        var q :| q in remaining;
        order := order + [q];
        remaining := remaining - {q};
      }
    }
  }

  // ---------------------------------------------------------------- the lines written

  /** The text `Evaluate` writes for a record; nothing when a read would leave the record. */
  function MessageText(m: LogMessage): seq<Byte>
  {
    match Evaluate(m.formatter, m.data, LevelSize)
    case Some(text) => text
    case None => []
  }

  /** One line of the log file: timestamp, level name, the formatted message, a newline. */
  function Line(ts: seq<Byte>, m: LogMessage): seq<Byte>
  {
    "[" + ts + "] [" + TagName(m.data[0]) + "] " + MessageText(m) + "\n"
  }

  /** `f` applied to each element of `xs` and its number, counting from `start`. */
  function Numbered<T, U>(f: (nat, T) -> U, start: nat, xs: seq<T>): (r: seq<U>)
    ensures |r| == |xs|
  {
    seq(|xs|, i requires 0 <= i < |xs| => f(start + i, xs[i]))
  }

  lemma {:induction false} NumberedAppend<T, U>(f: (nat, T) -> U, start: nat, a: seq<T>, b: seq<T>)
    ensures Numbered(f, start, a + b) == Numbered(f, start, a) + Numbered(f, start + |a|, b)
  {
    var l, r := Numbered(f, start, a + b), Numbered(f, start, a) + Numbered(f, start + |a|, b);
    forall i | 0 <= i < |a| + |b| ensures l[i] == r[i] {
      if i >= |a| {
        assert (a + b)[i] == b[i - |a|];
      }
    }
  }

  /** The lines for `msgs`, the first one being line number `start` of the file. */
  function Lines(clock: nat -> seq<Byte>, start: nat, msgs: seq<LogMessage>): (r: seq<seq<Byte>>)
    ensures |r| == |msgs|
  {
    Numbered((n, m) => Line(clock(n), m), start, msgs)
  }

  /** Writing two batches one after the other writes the lines of both, numbered on. */
  lemma {:induction false} LinesAppend(clock: nat -> seq<Byte>, start: nat, a: seq<LogMessage>, b: seq<LogMessage>)
    ensures Lines(clock, start, a + b) == Lines(clock, start, a) + Lines(clock, start + |a|, b)
  {
    NumberedAppend((n, m) => Line(clock(n), m), start, a, b);
  }

  lemma {:induction false} NumberedExtend<T, U>(f: (nat, T) -> U, written: seq<U>, a: seq<T>, b: seq<T>, mid: seq<U>, after: seq<U>)
    requires mid == written + Numbered(f, |written|, a)
    requires after == mid + Numbered(f, |mid|, b)
    ensures after == written + Numbered(f, |written|, a + b)
  {
    NumberedAppend(f, |written|, a, b);
    AppendAssoc(written, Numbered(f, |written|, a), Numbered(f, |written| + |a|, b));
  }

  /** A file holding the lines of `a` that then gains the lines of `b` holds the lines of `a + b`. */
  lemma {:induction false} LinesExtend(clock: nat -> seq<Byte>, written: seq<seq<Byte>>, a: seq<LogMessage>, b: seq<LogMessage>,
                                       mid: seq<seq<Byte>>, after: seq<seq<Byte>>)
    requires mid == written + Lines(clock, |written|, a)
    requires after == mid + Lines(clock, |mid|, b)
    ensures after == written + Lines(clock, |written|, a + b)
  {
    NumberedExtend((n, m) => Line(clock(n), m), written, a, b, mid, after);
  }

  /**
   * The line for a record built by `Log` names its level and holds the format
   * text with the arguments in place of the placeholders.
   */
  lemma {:induction false} LineOfRecord(ts: seq<Byte>, f: LogFormatter, level: LogLevel, args: seq<Arg>)
    requires AllEncodable(args) && AllWellFormed(args)
    requires LevelSize + EncodedSize(args) <= RecordSize
    requires f.kinds == KindsOf(args)
    ensures Line(ts, EncodeMessage(f, level, args))
         == "[" + ts + "] [" + LogLevelToString(level) + "] " + Render(f.formatString, args) + "\n"
  {
    EvaluateAfterEncode(f, level, args);
    TagRoundTrip(level);
  }

  /** The messages of the queues `qs`, queue after queue, as recorded in `pending`. */
  function Gather(qs: seq<MessageQueue>, pending: map<MessageQueue, seq<LogMessage>>): seq<LogMessage>
    requires forall i :: 0 <= i < |qs| ==> qs[i] in pending
  {
    if qs == [] then [] else Gather(qs[..|qs| - 1], pending) + pending[qs[|qs| - 1]]
  }

  /** Visiting one more queue appends its records. */
  lemma {:induction false} GatherSnoc(qs: seq<MessageQueue>, q: MessageQueue, pending: map<MessageQueue, seq<LogMessage>>)
    requires forall i :: 0 <= i < |qs| ==> qs[i] in pending
    requires q in pending
    ensures Gather(qs + [q], pending) == Gather(qs, pending) + pending[q]
  {
    assert (qs + [q])[..|qs|] == qs;
  }

  /** Taking the front element off the waiting part moves it to the end of the done part. */
  lemma {:induction false} FifoStep<T>(pending: seq<T>, done: seq<T>, contents: seq<T>, rest: seq<T>)
    requires pending == done + contents && contents != [] && rest == contents[1..]
    ensures pending == (done + [contents[0]]) + rest
  {
    assert contents == [contents[0]] + rest;
  }

  /** The file after the `k`-th queue's lines follow those of the queues before it. */
  lemma {:induction false} VisitLines(clock: nat -> seq<Byte>, written: seq<seq<Byte>>, order: seq<MessageQueue>, k: nat,
                                      waiting: map<MessageQueue, seq<LogMessage>>, mid: seq<seq<Byte>>, after: seq<seq<Byte>>)
    requires k < |order| && forall i :: 0 <= i < |order| ==> order[i] in waiting
    requires mid == written + Lines(clock, |written|, Gather(order[..k], waiting))
    requires after == mid + Lines(clock, |mid|, waiting[order[k]])
    ensures after == written + Lines(clock, |written|, Gather(order[..k + 1], waiting))
  {
    LinesExtend(clock, written, Gather(order[..k], waiting), waiting[order[k]], mid, after);
    GatherSnoc(order[..k], order[k], waiting);
    assert order[..k + 1] == order[..k] + [order[k]];
  }

  // ---------------------------------------------------------------- the logger

  /** Distinct queues own distinct buffers: each `SPSCQueue` embeds its own `_mDataBuffer`. */
  ghost predicate OwnBuffers(qs: set<MessageQueue>)
    reads qs
  {
    forall q, r :: q in qs && r in qs && q != r ==> q.buffer != r.buffer
  }

  class FastLogger {
    var logLevel: LogLevel
    const manager: QueueManager
    var output: seq<seq<Byte>>

    /** Every registered queue is a well-formed ring buffer with a buffer of its own. */
    ghost predicate Valid()
      reads this, manager, manager.queues
    {
      && (forall q :: q in manager.queues ==> q.Valid())
      && OwnBuffers(manager.queues)
    }

    /** What each registered queue holds. */
    ghost function Waiting(): (w: map<MessageQueue, seq<LogMessage>>)
      reads this, manager, manager.queues, set q | q in manager.queues :: q.buffer
      requires Valid()
      ensures w.Keys == manager.queues
    {
      map q | q in manager.queues :: q.Contents()
    }

    /** A logger at level INFO with no queues and an empty file. */
    constructor ()
      ensures Valid() && fresh(manager)
      ensures logLevel == INFO && manager.queues == {} && output == []
    {
      logLevel := INFO;
      manager := new QueueManager();
      output := [];
    }

    /** `SetLogLevel`. */
    method SetLogLevel(level: LogLevel)
      modifies this`logLevel
      ensures logLevel == level
    {
      logLevel := level;
    }

    /**
     * `Log`: at or above the current level, register the calling thread's
     * queue `q` and enqueue the record; below it, do nothing. The caller
     * guarantees what the source takes for granted: the queue has room and
     * the arguments fit in the record.
     */
    method Log(q: MessageQueue, f: LogFormatter, level: LogLevel, args: seq<Arg>)
      requires Valid() && q.Valid() && OwnBuffers(manager.queues + {q})
      requires AtLeast(level, logLevel) ==> !q.IsFull()
      requires AllEncodable(args) && (AtLeast(level, logLevel) ==> LevelSize + EncodedSize(args) <= RecordSize)
      modifies manager, q`tail, q.buffer
      ensures Valid() && q.Valid() && q.head == old(q.head)
      ensures forall r :: r in old(manager.queues) && r != q ==> r.Contents() == old(r.Contents())
      ensures AtLeast(level, logLevel) ==> manager.queues == old(manager.queues) + {q}
      ensures AtLeast(level, logLevel) ==> q.Contents() == old(q.Contents()) + [EncodeMessage(f, level, args)]
      ensures !AtLeast(level, logLevel) ==> manager.queues == old(manager.queues)
      ensures !AtLeast(level, logLevel) ==> q.tail == old(q.tail) && q.buffer[..] == old(q.buffer[..])
    {
      if AtLeast(level, logLevel) {
        manager.RegisterScopedQueue(q);
        var m := NewLogMessage(f, level, args);
        q.Enqueue(m);
      }
    }

    /**
     * The callback `ConsumeAndWriteLogs` hands each queue: dequeue until the
     * queue reports empty, writing one line per record in FIFO order.
     */
    method DrainQueue(q: MessageQueue, clock: nat -> seq<Byte>)
      requires q.Valid()
      modifies q`head, this`output
      ensures q.Valid() && q.Contents() == [] && q.tail == old(q.tail)
      ensures output == old(output) + Lines(clock, |old(output)|, old(q.Contents()))
    {
      ghost var pending, written := q.Contents(), output;
      ghost var done: seq<LogMessage> := [];
      var message := BlankMessage();
      while true
        invariant q.Valid() && q.tail == old(q.tail)
        invariant pending == done + q.Contents()
        invariant output == written + Lines(clock, |written|, done)
        decreases |q.Contents()|
      {
        ghost var contents := q.Contents();
        var ok;
        ok, message := q.Dequeue(message);
        if !ok {
          break;
        }
        FifoStep(pending, done, contents, q.Contents());
        ghost var mid := output;
        WriteLine(message, clock);
        LinesExtend(clock, written, done, [message], mid, output);
        done := done + [message];
      }
    }

    /** Append the line for `message`, stamped with the clock reading for its line number. */
    method WriteLine(message: LogMessage, clock: nat -> seq<Byte>)
      modifies this`output
      ensures output == old(output) + Lines(clock, |old(output)|, [message])
    {
      output := output + [Line(clock(|output|), message)];
    }

    /**
     * Where the visit stands after the first `k` queues of `order`: those are
     * empty, the others still hold what `waiting` recorded for them, and the
     * file has gained the lines of the first `k` queues' records.
     */
    ghost predicate DrainedUpTo(order: seq<MessageQueue>, k: nat, waiting: map<MessageQueue, seq<LogMessage>>,
                                clock: nat -> seq<Byte>, written: seq<seq<Byte>>)
      reads this, set i | 0 <= i < |order| :: order[i], set i | 0 <= i < |order| :: order[i].buffer
    {
      && k <= |order|
      && (forall i :: 0 <= i < |order| ==> order[i] in waiting && order[i].Valid())
      && (forall i :: 0 <= i < k ==> order[i].Contents() == [])
      && (forall i :: k <= i < |order| ==> order[i].Contents() == waiting[order[i]])
      && output == written + Lines(clock, |written|, Gather(order[..k], waiting))
    }

    /** Before the visit every queue still holds what it holds now, and nothing has been written. */
    lemma {:induction false} DrainStart(order: seq<MessageQueue>, clock: nat -> seq<Byte>)
      requires Valid()
      requires forall q :: q in order <==> q in manager.queues
      ensures DrainedUpTo(order, 0, Waiting(), clock, output)
    {
      assert order[..0] == [];
      assert output + [] == output;
    }

    /** After visiting all of `order`, every registered queue is empty and the file holds all their lines. */
    lemma {:induction false} DrainEnd(order: seq<MessageQueue>, waiting: map<MessageQueue, seq<LogMessage>>,
                                      clock: nat -> seq<Byte>, written: seq<seq<Byte>>)
      requires DrainedUpTo(order, |order|, waiting, clock, written)
      requires forall q :: q in order <==> q in manager.queues
      requires OwnBuffers(manager.queues)
      ensures Valid() && forall q :: q in manager.queues ==> q.Contents() == []
      ensures output == written + Lines(clock, |written|, Gather(order, waiting))
    {
      assert order[..|order|] == order;
      forall q | q in manager.queues ensures q.Valid() && q.Contents() == [] {
        var i :| 0 <= i < |order| && order[i] == q;
      }
    }

    /** The callback `ConsumeAndWriteLogs` passes to `ForEachQueue`, applied to the `k`-th queue visited. */
    method VisitQueue(order: seq<MessageQueue>, k: nat, ghost waiting: map<MessageQueue, seq<LogMessage>>,
                      clock: nat -> seq<Byte>, ghost written: seq<seq<Byte>>)
      requires k < |order| && DrainedUpTo(order, k, waiting, clock, written)
      requires forall i, j :: 0 <= i < j < |order| ==> order[i] != order[j]
      modifies this`output, order[k]
      ensures DrainedUpTo(order, k + 1, waiting, clock, written)
    {
      var q := order[k];
      ghost var mid := output;
      DrainQueue(q, clock);
      forall i | 0 <= i < |order| && i != k
        ensures order[i].Valid() && order[i].Contents() == old(order[i].Contents())
      {
        assert order[i] != q;
      }
      VisitLines(clock, written, order, k, waiting, mid, output);
    }

    /**
     * `ConsumeAndWriteLogs`: drain every registered queue, in the order
     * `ForEachQueue` visits them, which is returned. Afterwards every queue is
     * empty and the file has gained one line per record that was waiting.
     */
    method ConsumeAndWriteLogs(clock: nat -> seq<Byte>) returns (order: seq<MessageQueue>)
      requires Valid()
      modifies this`output, manager.queues
      ensures Valid() && manager.queues == old(manager.queues)
      ensures forall q :: q in order <==> q in manager.queues
      ensures forall i, j :: 0 <= i < j < |order| ==> order[i] != order[j]
      ensures forall q :: q in manager.queues ==> q.Contents() == []
      ensures output == old(output) + Lines(clock, |old(output)|, Gather(order, old(Waiting())))
    {
      ghost var written, waiting := old(output), old(Waiting());
      order := manager.ForEachQueue();
      DrainStart(order, clock);
      var k := 0;
      while k < |order|
        invariant DrainedUpTo(order, k, waiting, clock, written)
      {
        VisitQueue(order, k, waiting, clock, written);
        k := k + 1;
      }
      DrainEnd(order, waiting, clock, written);
    }
  }

  /** A duplicate-free listing of the one-element set `{q}` is `[q]`. */
  lemma {:induction false} SingleOrder(order: seq<MessageQueue>, q: MessageQueue)
    requires forall x :: x in order <==> x in {q}
    requires forall i, j :: 0 <= i < j < |order| ==> order[i] != order[j]
    ensures order == [q]
  {
    assert q in order;
    assert order[0] in order && order[|order| - 1] in order;
  }

  /** What a drain of a single queue holding one record `m` appends to an empty file. */
  lemma {:induction false} OneQueueLines(clock: nat -> seq<Byte>, waiting: map<MessageQueue, seq<LogMessage>>,
                                         order: seq<MessageQueue>, q: MessageQueue, m: LogMessage,
                                         written: seq<seq<Byte>>, out: seq<seq<Byte>>)
    requires q in waiting && waiting[q] == [m]
    requires forall x :: x in order <==> x in {q}
    requires forall i, j :: 0 <= i < j < |order| ==> order[i] != order[j]
    requires forall i :: 0 <= i < |order| ==> order[i] in waiting
    requires written == [] && out == written + Lines(clock, |written|, Gather(order, waiting))
    ensures out == [Line(clock(0), m)]
  {
    SingleOrder(order, q);
    GatherSnoc([], q, waiting);
    assert [] + [q] == [q];
    assert [] + Lines(clock, 0, [m]) == Lines(clock, 0, [m]);
  }

  /** The drain half of the scenario below: one queue holding one record `m` drains to its one line. */
  method DrainOne(logger: FastLogger, q: MessageQueue, clock: nat -> seq<Byte>, ghost m: LogMessage)
    requires logger.Valid() && logger.output == [] && logger.manager.queues == {q}
    requires q.Valid() && q.Contents() == [m]
    modifies logger`output, logger.manager.queues
    ensures logger.output == [Line(clock(0), m)]
  {
    ghost var waiting := logger.Waiting();
    assert waiting[q] == [m];
    ghost var written := logger.output;
    var order := logger.ConsumeAndWriteLogs(clock);
    OneQueueLines(clock, waiting, order, q, m, written, logger.output);
  }

  lemma {:induction false} InfoLine(ts: seq<Byte>, text: seq<Byte>)
    ensures "[" + ts + "] [" + LogLevelToString(INFO) + "] " + text + "\n" == "[" + ts + "] [INFO] " + text + "\n"
  {
    assert LogLevelToString(INFO) == "INFO";
    assert "] [" + "INFO" + "] " == "] [INFO] ";
  }

  /**
   * One record through the whole pipeline: logged at INFO on a fresh logger
   * and drained, it becomes the only line of the file, with the level name
   * and the rendered message.
   */
  method LogThenDrain(f: LogFormatter, args: seq<Arg>, clock: nat -> seq<Byte>) returns (lines: seq<seq<Byte>>)
    requires AllEncodable(args) && AllWellFormed(args)
    requires LevelSize + EncodedSize(args) <= RecordSize && f.kinds == KindsOf(args)
    ensures lines == ["[" + clock(0) + "] [INFO] " + Render(f.formatString, args) + "\n"]
  {
    var logger := new FastLogger();
    var q := new SpscQueue<LogMessage>(4, BlankMessage());
    assert IsPowerOfTwo(2);
    logger.Log(q, f, INFO, args);
    assert q.Contents() == [EncodeMessage(f, INFO, args)];
    DrainOne(logger, q, clock, EncodeMessage(f, INFO, args));
    LineOfRecord(clock(0), f, INFO, args);
    InfoLine(clock(0), Render(f.formatString, args));
    lines := logger.output;
  }


  /** What `Log` then the drain promise for one record: the line the arguments render to. */
  predicate Loggable(f: LogFormatter, args: seq<Arg>)
  {
    AllEncodable(args) && AllWellFormed(args) &&
    LevelSize + EncodedSize(args) <= RecordSize && f.kinds == KindsOf(args)
  }

  /** The line written at time `ts` for a record logged at `level` with `f` and `args`. */
  function RecordLine(ts: seq<Byte>, level: LogLevel, f: LogFormatter, args: seq<Arg>): seq<Byte>
  {
    "[" + ts + "] [" + LogLevelToString(level) + "] " + Render(f.formatString, args) + "\n"
  }

  /** Two queues visited in either order gather their records queue by queue. */
  lemma {:induction false} GatherPair(q1: MessageQueue, q2: MessageQueue, waiting: map<MessageQueue, seq<LogMessage>>)
    requires q1 in waiting && q2 in waiting
    ensures Gather([q1, q2], waiting) == waiting[q1] + waiting[q2]
  {
    GatherSnoc([q1], q2, waiting);
    GatherSnoc([], q1, waiting);
    assert [] + [q1] == [q1] && [q1] + [q2] == [q1, q2];
  }

  /** The first three lines of a file are stamped with clock readings 0, 1 and 2. */
  lemma {:induction false} ThreeLines(clock: nat -> seq<Byte>, m1: LogMessage, m2: LogMessage, m3: LogMessage)
    ensures Lines(clock, 0, [m1, m2, m3]) == [Line(clock(0), m1), Line(clock(1), m2), Line(clock(2), m3)]
  {
  }

  /** A duplicate-free sequence has as many distinct elements as entries. */
  lemma {:induction false} DistinctCount<T>(s: seq<T>)
    requires forall i, j :: 0 <= i < j < |s| ==> s[i] != s[j]
    ensures |set x | x in s| == |s|
  {
    if s != [] {
      var init, last := s[..|s| - 1], s[|s| - 1];
      DistinctCount(init);
      assert last !in init by {
        forall i | 0 <= i < |init| ensures init[i] != last {
          assert init[i] == s[i];
        }
      }
      assert (set x | x in s) == (set x | x in init) + {last} by {
        assert s == init + [last];
      }
    }
  }

  /** A duplicate-free listing of a two-element set lists it in one order or the other. */
  lemma {:induction false} PairOrder(order: seq<MessageQueue>, q1: MessageQueue, q2: MessageQueue)
    requires q1 != q2
    requires forall x :: x in order <==> x in {q1, q2}
    requires forall i, j :: 0 <= i < j < |order| ==> order[i] != order[j]
    ensures order == [q1, q2] || order == [q2, q1]
  {
    DistinctCount(order);
    assert (set x | x in order) == {q1, q2};
    assert order[0] in order && order[1] in order;
  }

  /** The lines of three records logged at INFO are the lines their arguments render to. */
  lemma {:induction false} ThreeRecordLines(clock: nat -> seq<Byte>, fa: LogFormatter, a: seq<Arg>,
                                            fb: LogFormatter, b: seq<Arg>, fc: LogFormatter, c: seq<Arg>)
    requires Loggable(fa, a) && Loggable(fb, b) && Loggable(fc, c)
    ensures [Line(clock(0), EncodeMessage(fa, INFO, a)), Line(clock(1), EncodeMessage(fb, INFO, b)), Line(clock(2), EncodeMessage(fc, INFO, c))]
         == [RecordLine(clock(0), INFO, fa, a), RecordLine(clock(1), INFO, fb, b), RecordLine(clock(2), INFO, fc, c)]
    ensures [Line(clock(0), EncodeMessage(fc, INFO, c)), Line(clock(1), EncodeMessage(fa, INFO, a)), Line(clock(2), EncodeMessage(fb, INFO, b))]
         == [RecordLine(clock(0), INFO, fc, c), RecordLine(clock(1), INFO, fa, a), RecordLine(clock(2), INFO, fb, b)]
  {
    LineOfRecord(clock(0), fa, INFO, a);
    LineOfRecord(clock(1), fb, INFO, b);
    LineOfRecord(clock(2), fc, INFO, c);
    LineOfRecord(clock(0), fc, INFO, c);
    LineOfRecord(clock(1), fa, INFO, a);
    LineOfRecord(clock(2), fb, INFO, b);
  }

  /** Appending one element to an empty or a one-element sequence, spelled out. */
  lemma {:induction false} Snoc<T>(x: seq<T>, y: T, z: seq<T>)
    requires z == x + [y]
    ensures x == [] ==> z == [y]
    ensures |x| == 1 ==> z == [x[0], y]
  {
  }

  /**
   * A thread logs at INFO through a logger at INFO into its queue `q`, which
   * has room; the other thread's queue `other` keeps what it holds.
   */
  method LogOn(logger: FastLogger, q: MessageQueue, other: MessageQueue, f: LogFormatter, args: seq<Arg>)
    requires logger.Valid() && logger.logLevel == INFO && q.Valid() && other.Valid() && q != other && q.buffer != other.buffer
    requires logger.manager.queues <= {q, other}
    requires Loggable(f, args) && |q.Contents()| < q.size - 1
    modifies logger.manager, q`tail, q.buffer
    ensures logger.Valid() && logger.logLevel == INFO && logger.output == old(logger.output)
    ensures logger.manager.queues == old(logger.manager.queues) + {q}
    ensures q.Valid() && q.Contents() == old(q.Contents()) + [EncodeMessage(f, INFO, args)]
    ensures other.Valid() && other.Contents() == old(other.Contents())
  {
    q.Capacity();
    logger.Log(q, f, INFO, args);
  }

  /** A fresh logger and two fresh, empty queues of four slots, one per thread. */
  method NewLoggerAndQueues() returns (logger: FastLogger, q1: MessageQueue, q2: MessageQueue)
    ensures fresh(logger) && fresh(logger.manager) && fresh(q1) && fresh(q2) && fresh(q1.buffer) && fresh(q2.buffer)
    ensures logger.Valid() && logger.logLevel == INFO && logger.output == [] && logger.manager.queues == {}
    ensures q1 != q2 && q1.buffer != q2.buffer && q1.Valid() && q2.Valid() && q1.size == 4 && q2.size == 4
    ensures q1.Contents() == [] && q2.Contents() == []
  {
    logger := new FastLogger();
    q1 := new SpscQueue<LogMessage>(4, BlankMessage());
    q2 := new SpscQueue<LogMessage>(4, BlankMessage());
    assert IsPowerOfTwo(2);
  }

  /**
   * The logging half of the scenario below: on a fresh logger one thread's
   * queue receives `a` then `b`, another thread's queue receives `c`.
   */
  method LogFromTwoThreads(fa: LogFormatter, a: seq<Arg>, fb: LogFormatter, b: seq<Arg>,
                           fc: LogFormatter, c: seq<Arg>) returns (logger: FastLogger, q1: MessageQueue, q2: MessageQueue)
    requires Loggable(fa, a) && Loggable(fb, b) && Loggable(fc, c)
    ensures fresh(logger) && fresh(q1) && fresh(q2)
    ensures logger.Valid() && logger.output == [] && q1 != q2 && logger.manager.queues == {q1, q2}
    ensures q1.Valid() && q1.Contents() == [EncodeMessage(fa, INFO, a), EncodeMessage(fb, INFO, b)]
    ensures q2.Valid() && q2.Contents() == [EncodeMessage(fc, INFO, c)]
  {
    logger, q1, q2 := OneRecordEach(fa, a, fc, c);
    LogOn(logger, q1, q2, fb, b);
    Snoc([EncodeMessage(fa, INFO, a)], EncodeMessage(fb, INFO, b), q1.Contents());
  }

  /** On a fresh logger, one thread logs `a` and then another thread logs `c`. */
  method OneRecordEach(fa: LogFormatter, a: seq<Arg>, fc: LogFormatter, c: seq<Arg>)
    returns (logger: FastLogger, q1: MessageQueue, q2: MessageQueue)
    requires Loggable(fa, a) && Loggable(fc, c)
    ensures fresh(logger) && fresh(logger.manager) && fresh(q1) && fresh(q2) && fresh(q1.buffer) && fresh(q2.buffer)
    ensures logger.Valid() && logger.logLevel == INFO && logger.output == [] && logger.manager.queues == {q1, q2}
    ensures q1 != q2 && q1.buffer != q2.buffer && q1.Valid() && q2.Valid() && q1.size == 4 && q2.size == 4
    ensures q1.Contents() == [EncodeMessage(fa, INFO, a)] && q2.Contents() == [EncodeMessage(fc, INFO, c)]
  {
    logger, q1, q2 := NewLoggerAndQueues();
    LogOn(logger, q1, q2, fa, a);
    Snoc([], EncodeMessage(fa, INFO, a), q1.Contents());
    LogOn(logger, q2, q1, fc, c);
    Snoc([], EncodeMessage(fc, INFO, c), q2.Contents());
  }

  /**
   * What a drain of two queues holding `m1`, `m2` and `m3` appends to an
   * empty file, whichever order the registry visits them in.
   */
  lemma {:induction false} TwoQueueLines(clock: nat -> seq<Byte>, waiting: map<MessageQueue, seq<LogMessage>>,
                                         order: seq<MessageQueue>, q1: MessageQueue, q2: MessageQueue,
                                         m1: LogMessage, m2: LogMessage, m3: LogMessage, written: seq<seq<Byte>>, out: seq<seq<Byte>>)
    requires q1 != q2 && q1 in waiting && q2 in waiting
    requires waiting[q1] == [m1, m2] && waiting[q2] == [m3]
    requires forall q :: q in order <==> q in {q1, q2}
    requires forall i, j :: 0 <= i < j < |order| ==> order[i] != order[j]
    requires forall i :: 0 <= i < |order| ==> order[i] in waiting
    requires written == [] && out == written + Lines(clock, |written|, Gather(order, waiting))
    ensures out == [Line(clock(0), m1), Line(clock(1), m2), Line(clock(2), m3)]
         || out == [Line(clock(0), m3), Line(clock(1), m1), Line(clock(2), m2)]
  {
    PairOrder(order, q1, q2);
    GatherPair(order[0], order[1], waiting);
    assert [] + Lines(clock, 0, Gather(order, waiting)) == Lines(clock, 0, Gather(order, waiting));
    if order == [q1, q2] {
      assert Gather(order, waiting) == [m1, m2, m3];
      ThreeLines(clock, m1, m2, m3);
    } else {
      assert Gather(order, waiting) == [m3, m1, m2];
      ThreeLines(clock, m3, m1, m2);
    }
  }

  /**
   * The drain half of the scenario below: with `m1`, `m2` waiting on one
   * queue and `m3` on the other, the file gets each queue's lines in FIFO
   * order, the queues in either order.
   */
  method DrainTwo(logger: FastLogger, q1: MessageQueue, q2: MessageQueue, clock: nat -> seq<Byte>,
                  ghost m1: LogMessage, ghost m2: LogMessage, ghost m3: LogMessage)
    requires logger.Valid() && logger.output == [] && q1 != q2 && logger.manager.queues == {q1, q2}
    requires q1.Valid() && q1.Contents() == [m1, m2] && q2.Valid() && q2.Contents() == [m3]
    modifies logger`output, logger.manager.queues
    ensures logger.output == [Line(clock(0), m1), Line(clock(1), m2), Line(clock(2), m3)]
         || logger.output == [Line(clock(0), m3), Line(clock(1), m1), Line(clock(2), m2)]
  {
    ghost var waiting := logger.Waiting();
    assert waiting[q1] == [m1, m2] && waiting[q2] == [m3];
    ghost var written := logger.output;
    var order := logger.ConsumeAndWriteLogs(clock);
    TwoQueueLines(clock, waiting, order, q1, q2, m1, m2, m3, written, logger.output);
  }

  /**
   * Two producer threads on a fresh logger: one logs `a` then `b`, the other
   * `c`, all at INFO; one drain then writes each thread's records in the
   * order they were logged, the threads' queues in the order the registry
   * visits them.
   */
  method TwoProducersThenDrain(fa: LogFormatter, a: seq<Arg>, fb: LogFormatter, b: seq<Arg>,
                               fc: LogFormatter, c: seq<Arg>, clock: nat -> seq<Byte>) returns (lines: seq<seq<Byte>>)
    requires Loggable(fa, a) && Loggable(fb, b) && Loggable(fc, c)
    ensures lines == [RecordLine(clock(0), INFO, fa, a), RecordLine(clock(1), INFO, fb, b), RecordLine(clock(2), INFO, fc, c)]
         || lines == [RecordLine(clock(0), INFO, fc, c), RecordLine(clock(1), INFO, fa, a), RecordLine(clock(2), INFO, fb, b)]
  {
    var logger, q1, q2 := LogFromTwoThreads(fa, a, fb, b, fc, c);
    DrainTwo(logger, q1, q2, clock, EncodeMessage(fa, INFO, a), EncodeMessage(fb, INFO, b), EncodeMessage(fc, INFO, c));
    ThreeRecordLines(clock, fa, a, fb, b, fc, c);
    lines := logger.output;
  }
}
