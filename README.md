# FastLogger core in Dafny

A model of the core of FastLogger, a low-latency C++ logger, with proofs about it.

A logging thread does not format anything. It writes a compact binary record into a lock-free single-producer/single-consumer ring buffer owned by that thread. The record holds the level tag and the raw bytes of each argument. A background consumer later visits every registered queue. It drains each one and formats each record into a text line of the log file: a timestamp, the level name and the format text with its `{}` placeholders filled.

The model covers these parts:

- **`Spsc`** (`spsc_queue.dfy`): the ring buffer `SPSCQueue<T, QueueSize>`.
  - A class over an `array<T>` with `head` and `tail` indices.
  - The next index is computed by the same bit mask as the source, and the mask is proved to equal reduction modulo a power-of-two size.
  - The queue's contents are the window of slots from `head` up to `tail`.
  - `Enqueue` and `Dequeue` are proved to append to the back and take from the front of that window.
- **`LogLevels`** (`log_level.dfy`): the `LogLevel` enumeration and its order, `LogLevelToString` and `LogLevelStrToEnum`.
- **`StringLiterals`** (`string_literal.dfy`): the compile-time concatenation `StringLiteral<N...>`.
- **`Args`** (`args.dfy`): the arguments a log call can pass, and the native byte layout of scalars.
  - Scalars are stored as little-endian two's complement of `sizeof(T)` bytes.
- **`LogFormatters`** (`log_formatter.dfy`): the formatter.
  - A formatter is a value: its format text and the kinds of its arguments.
  - `PrintData`, `Format` and `Evaluate` read a record back.
  - `Render` is the reference meaning: the format text with its placeholders filled by the arguments' text.
- **`LogMessages`** (`log_message.dfy`): the 1024-byte `LogMessage` record.
  - The constructors, `CopyData` and `CopyArgs` write into an `array` in place.
  - Lemmas state the layout and prove that decoding what was encoded gives the rendered text.
- **`Logging`** (`fast_logger.dfy`): the logger itself.
  - `ThreadScopedQueueManager` as a class holding the set of registered queues.
  - `FastLogger` with its level filter in `Log`, `SetLogLevel`, and the drain `ConsumeAndWriteLogs`.
  - The drain is proved to empty every registered queue and to append exactly one line per waiting record, in each queue's FIFO order.
  - The log file is the sequence `output` of lines. The wall clock is a parameter `clock` that gives the timestamp text of the `n`-th line of the file.
- **`Bytes`** and **`Arith`**: helpers for byte strings, NUL scanning, slicing and division.

## Model

| member | source | states |
|---|---|---|
| Spsc.MaskIsMod | SPSCQueue.hpp:44-46 | For a power-of-two size `n`, `BitAnd(x, IndexMask(n))`, the source's `x & (n - 1)`, equals `x mod n`. |
| Spsc.NextIndex | SPSCQueue.hpp:44-46 | `getNextIndex(i)`, computed as `BitAnd(i + 1, IndexMask(QueueSize))`, is `(i + 1) mod QueueSize`. From a slot inside the buffer it is the next slot, wrapping to 0 after the last one, so the indices stay in `[0, QueueSize)`. |
| Spsc.WindowSize | SPSCQueue.hpp:47-49 | The slots from `head` up to `tail` number `(tail - head) mod QueueSize`. That is at most `QueueSize - 1`, and none exactly when `head == tail`. |
| Spsc.WindowPush | SPSCQueue.hpp:14-28 | Writing the slot at `tail` and stepping `tail` appends that element to the window, provided the step does not reach `head`. |
| Spsc.WindowPop | SPSCQueue.hpp:30-36 | The front of a non-empty window is the slot at `head`. Stepping `head` removes exactly that element. |
| Spsc.SpscQueue.constructor | SPSCQueue.hpp:47-49 | A new queue has `QueueSize` slots, `head == tail == 0` and holds nothing. |
| Spsc.SpscQueue.Capacity | SPSCQueue.hpp:14-28 | A queue holds at most `QueueSize - 1` elements. It counts as full (the next write index meets `head`) exactly when it holds that many. |
| Spsc.SpscQueue.IsEmpty | SPSCQueue.hpp:38-41 | The result is true exactly when `head == tail`, and exactly when the queue holds nothing. |
| Spsc.SpscQueue.Enqueue | SPSCQueue.hpp:14-28 | On a queue that is not full: writes `x` at the old `tail`, leaves every other slot and `head` alone, and advances `tail` by one slot. The contents gain `x` at the back. |
| Spsc.SpscQueue.Dequeue | SPSCQueue.hpp:30-36 | Succeeds exactly when the queue holds something. On an empty queue: returns false, and the out-value and `head` are unchanged. Otherwise: returns the element at `head`, which is the front of the contents, and advances `head`; the contents lose that element. `tail` and the buffer never change. |
| Spsc.FifoScenario | SPSCQueue.hpp:14-36 | Two elements enqueued on a fresh queue come out in the order they went in. |
| LogLevels.Tag | FastLogger.hpp:24-29 | The enumerators are stored as the bytes 0 to 3. |
| LogLevels.AtLeastIsTotalOrder | FastLogger.hpp:24-29 | `AtLeast`, the `>=` on levels that `Log` filters with, is a total order, with DEBUG < INFO < ERROR < FATAL. |
| LogLevels.LevelOfTag | FastLogger.hpp:24-29 | A byte denotes a level exactly when it is below 4, and then it is that level's tag. |
| LogLevels.TagRoundTrip | FastLogger.hpp:24-29 | Reading a level's stored tag gives the level back. |
| LogLevels.LogLevelToString | FastLogger.hpp:31-41 | Every level has a non-empty name with no NUL in it. |
| LogLevels.TagName | FastLogger.hpp:31-43 | Naming the byte in the tag position gives the level's name for the four enumerators, and "INVALID" for any other value. |
| LogLevels.NameRoundTrip | FastLogger.hpp:31-55 | `LogLevelStrToEnum` inverts `LogLevelToString`: `LogLevelStrToEnum(LogLevelToString(l)) == l` for every level, and the four names are distinct. |
| LogLevels.UnknownNameIsFatal | FastLogger.hpp:45-55 | `LogLevelStrToEnum` maps a string that is not one of the four names to FATAL. |
| StringLiterals.MakeStringLiteral | FastLogger.hpp:69-85 | The value is the inputs with their terminators dropped, run together, followed by one NUL. `TotalSize` is the sum of the `N`s and is at least the value's length. The two are equal exactly when there is one input. |
| StringLiterals.LayoutAt | FastLogger.hpp:75-79 | Byte `k` of the `i`-th input lands at the `dest` offset of that input plus `k`. |
| StringLiterals.FormatTextIsConcatenation | FastLogger.hpp:69-80 | Read as a C string, the literal is exactly its inputs' texts run together, provided no input holds a NUL of its own. |
| Args.KindsOf | FastLogger.hpp:124-126 | The kinds a formatter decodes with are those of the arguments, position by position. |
| Args.LittleEndianRoundTrip | FastLogger.hpp:144-146 | Reading `w` bytes stored least significant first gives back any value below `256^w`. |
| Args.TwosComplementRoundTrip | FastLogger.hpp:144-146 | Reading back the bit pattern of an in-range value of a signed or unsigned type gives the value. |
| Args.StoreLoadRoundTrip | FastLogger.hpp:100-101 | Loading a scalar from the bytes it was stored as gives the value back, for every in-range value of every integral type. |
| LogFormatters.NewLogFormatter | FastLogger.hpp:58-63 | The formatter's text is the literal up to its first NUL. That text holds no NUL and is a prefix of the literal. |
| LogFormatters.Decimal | FastLogger.hpp:100 | The decimal text `Show` writes for an integer, as `<<` does. The decimal text of a number is non-empty, all digits, and has no leading zero unless the number is 0. |
| LogFormatters.DecimalRoundTrip | FastLogger.hpp:100 | Reading the decimal text back gives the number. |
| LogFormatters.DecodeArg | FastLogger.hpp:94-104 | A decoded argument has the requested kind. The cursor steps past its size and stays inside the record. |
| LogFormatters.PrintData | FastLogger.hpp:94-104 | Succeeds exactly when an argument of the kind can be read at the cursor. The new cursor is past the old one and inside the record. For text it is just past the NUL that ends the text, and the text holds no NUL. |
| LogFormatters.FindPlaceholder | FastLogger.hpp:114 | `strstr(s, "{}")`: the result is a placeholder with none before it, or there is no placeholder at all. |
| LogFormatters.FormatStep | FastLogger.hpp:112-122 | `Format<Args...>`: with a placeholder and an argument left, it writes the text before the first `{}`, then the argument, then the rest formatted with the remaining arguments. |
| LogFormatters.FormatNoPlaceholder | FastLogger.hpp:106-118 | `Format<Args...>`: with no `{}` left, it writes the rest of the text verbatim, whatever arguments remain. |
| LogFormatters.RenderSplices | FastLogger.hpp:106-122 | The rendering of a text made of placeholder-free spans joined by `{}` has these properties. The arguments' texts go between the spans, in order. Extra arguments are ignored. When the arguments run out, the remaining `{}` stay in place. |
| LogMessages.EncodeArg | FastLogger.hpp:133-148 | An argument occupies exactly the number of bytes the cursor advances over: `size() + 1` for text, `sizeof(T)` for a scalar. |
| LogMessages.EncodeRecord | FastLogger.hpp:163-172 | A record is the level tag followed by the arguments' bytes. Its length is 1 plus the sum of the argument sizes. |
| LogMessages.RecordLayout | FastLogger.hpp:133-172 | The level tag is byte 0. Argument `i` starts at its offset and occupies exactly its own bytes. The offsets start at `sizeof(LogLevel)`, step by each argument's size in call order, and end at the record's length. |
| LogMessages.EncodeMessage | FastLogger.hpp:129-172 | The 1024-byte record starts with the tag-and-arguments prefix and keeps the formatter. |
| LogMessages.Memcpy | FastLogger.hpp:135 | Copies the source bytes to `buf[pos..]` and changes no other byte. |
| LogMessages.CopyData | FastLogger.hpp:133-148 | Writes one argument's bytes at `pos` (text followed by a NUL, or a scalar's `sizeof(T)` bytes). Returns `pos` plus that size. No other byte changes. |
| LogMessages.CopyArgs | FastLogger.hpp:150-159 | Writes the arguments' bytes one after another from `pos` and returns the end. No other byte changes. |
| LogMessages.NewLogMessage | FastLogger.hpp:163-172 | The constructed message is the tag in byte 0, the arguments from byte 1, and the formatter. |
| LogMessages.DecodeAfterEncode | FastLogger.hpp:94-104 | `PrintData` at the offset where `CopyData` wrote an argument recovers the same argument, its text as `Show` writes it (`<<` at lines 98 and 101), and the same advanced cursor. Text must have no embedded NUL. |
| LogMessages.FormatAfterEncode | FastLogger.hpp:106-122 | `Format` over the bytes `CopyArgs` wrote yields the rendering of the format text with the original arguments. |
| LogMessages.EmbeddedNulShiftsArguments | FastLogger.hpp:97-99 | The NUL-free requirement cannot be dropped. A string holding a NUL is written whole but read only up to that NUL, so later arguments are read from the wrong bytes. |
| LogMessages.EvaluateAfterEncode | FastLogger.hpp:124-126 | For a record built with the formatter of the same call site, byte 0 reads back as the level and `Evaluate`, which runs `Format` from the byte after the tag, renders exactly the arguments. |
| Logging.QueueManager.constructor | FastLogger.hpp:218-220 | A new registry holds no queue. |
| Logging.QueueManager.RegisterScopedQueue | FastLogger.hpp:197-200 | The queue is added to the set. Registering a queue that is already there changes nothing. |
| Logging.QueueManager.UnRegisterThreadScopedQueue | FastLogger.hpp:202-208 | The queue is removed from the set. Removing an absent queue changes nothing. |
| Logging.QueueManager.ForEachQueue | FastLogger.hpp:210-216 | The visit order lists every registered queue exactly once and nothing else. |
| Logging.LinesAppend | FastLogger.hpp:265 | Writing two batches of records one after the other writes the lines of both, numbered on. |
| Logging.LineOfRecord | FastLogger.hpp:261-265 | `Line`, the text the drain writes for a message with `MessageText` as its evaluated body, is for a record built by `Log` `"[" ts "] [" LEVEL "] "`, then the rendered message, then a newline. |
| Logging.GatherSnoc | FastLogger.hpp:213-214 | Visiting one more queue appends that queue's records to those already gathered. |
| Logging.FastLogger.constructor | FastLogger.hpp:230-232 | A new logger is at level INFO, with no registered queue and an empty file. |
| Logging.FastLogger.SetLogLevel | FastLogger.hpp:250 | The logger's level becomes the given one. |
| Logging.FastLogger.Log | FastLogger.hpp:242-248 | At or above the logger's level (`AtLeast`), the calling thread's queue is registered and gains the encoded record at its back. Below it, neither the registry nor the queue changes, and the arguments need not fit a record. Every other registered queue keeps its contents. The registered queues keep owning distinct buffers (`OwnBuffers`). |
| Logging.FastLogger.DrainQueue | FastLogger.hpp:253-267 | Dequeuing until the queue reports empty leaves it empty. The file gains one line per record the queue held, in FIFO order. |
| Logging.FastLogger.WriteLine | FastLogger.hpp:261-266 | The file gains one line for the message, stamped with the clock reading for that line's number. |
| Logging.FastLogger.VisitQueue | FastLogger.hpp:253-268 | The lambda run on the `k`-th queue of the visit order: afterwards that queue is empty too and the file has gained its records' lines, in FIFO order, after those of the queues before it. The queues after it are untouched. |
| Logging.FastLogger.ConsumeAndWriteLogs | FastLogger.hpp:252-269 | Every registered queue is visited once and ends empty, and the registry is unchanged. The file gains one line per waiting record: queue after queue in visit order, each queue's records in FIFO order. |
| Logging.OneQueueLines | FastLogger.hpp:252-269 | A drain into an empty file, of a registry holding one queue with one record `m`, writes exactly `m`'s line. |
| Logging.DrainOne | FastLogger.hpp:252-269 | `ConsumeAndWriteLogs` on a logger whose only queue holds `m` leaves the file with the single line for `m`. |
| Logging.LogThenDrain | FastLogger.hpp:242-270 | End to end: a record logged at INFO on a new logger and then drained becomes the only line of the file, `"[ts] [INFO] "` followed by the rendered message and a newline. |
| Logging.PairOrder | FastLogger.hpp:210-216 | A visit order that lists two distinct registered queues once each is one of the two orders of that pair. |
| Logging.LogOn | FastLogger.hpp:242-248 | One thread's INFO call on a logger shared with another thread: its queue gains the record at its back and the other thread's queue keeps its contents. |
| Logging.NewLoggerAndQueues | FastLogger.hpp:223-232 | A new logger with no queue, and two new empty queues that own distinct buffers, one per thread. |
| Logging.OneRecordEach | FastLogger.hpp:242-248 | On a new logger, thread 1 logs `a` and thread 2 logs `c`. Both queues are registered and each holds just its own record. |
| Logging.LogFromTwoThreads | FastLogger.hpp:242-248 | Thread 1 logs `a`, thread 2 logs `c`, thread 1 logs `b`. The registry then holds both threads' queues. Thread 1's queue holds `a` then `b`, and thread 2's queue holds `c`. |
| Logging.TwoQueueLines | FastLogger.hpp:252-269 | A drain into an empty file, of two queues holding `m1`, `m2` and `m3`, writes either `m1`, `m2`, `m3` or `m3`, `m1`, `m2`, numbered 0 to 2. Each queue's own records stay in order and are never interleaved with the other's. |
| Logging.DrainTwo | FastLogger.hpp:252-269 | `ConsumeAndWriteLogs` on a logger with those two queues writes one of those two files. |
| Logging.ThreeRecordLines | FastLogger.hpp:261-265 | The lines of three records built by `Log` at INFO are the three rendered lines, in either of the two orders. |
| Logging.TwoProducersThenDrain | FastLogger.hpp:242-269 | End to end with two threads: after the calls above and one drain, the file is the three rendered lines with per-thread order kept. That is `a`, `b`, `c` or `c`, `a`, `b`, stamped by line number. |

## Left out

- Atomics, memory orders and `CACHE_ALIGN` are not modelled. Each queue operation is one sequential step, and producer/consumer interleaving is not modelled.
- Spsc.SpscQueue.Enqueue: the spin-wait while the queue is full becomes the precondition that the queue is not full. Liveness of the wait is not modelled.
- Spsc.SpscQueue.Enqueue: the two overloads (construct in place, and copy) are one method that stores a value.
- Logging.FastLogger.Log: requires that the queue own a buffer no other registered queue shares. In the source every queue embeds its own `_mDataBuffer` (SPSCQueue.hpp:47).
- Logging.FastLogger.Log: enqueues a message value built by `NewLogMessage` rather than constructing it inside the slot. The caller must guarantee a non-full queue, as for `Enqueue`.
- Logging.FastLogger.Log: the `thread_local` queue lookup (`GetThreadScopedMessageQueue`, FastLogger.hpp:223-226) becomes a parameter `q`.
  - The source keeps one queue per thread, not one per thread and logger. That queue is built with, and registered in, the manager of the first logger the thread logs through.
  - A later `Log` on a second `FastLogger` (several can exist: `LogManager::CreateLogger`, LogManager.hpp:26-35) enqueues into that same queue and registers nothing with its own manager. The record then goes to the first logger's file.
  - The ensures `manager.queues == old(manager.queues) + {q}` therefore holds in the source only for a thread's first logger. The model lets each call name its queue.
  - Registration happens when `Log` passes the filter, rather than once when the thread first logs.
  - The `ThreadScopedQueue` wrapper is identified with its queue.
- Logging.QueueManager.UnRegisterThreadScopedQueue: the `sleep(5)` wait for a non-empty queue is left out, because it affects timing only.
- The registry's `std::mutex` is left out, because every operation is sequential here.
- `ForEachQueue` iterates an `unordered_set` in an unspecified order, so the model returns some order and proves only that it visits each queue exactly once.
- Timestamps (`system_clock`, `localtime_r`, `put_time`) become the `clock` parameter. The text format of the timestamp is not modelled.
- File I/O (`ofstream`, `flush`, `close`, the file name) becomes the sequence `output` of lines, each ending in `"\n"`.
- Scalars other than `bool`, the character types and 2-, 4- and 8-byte integers are not modelled. This covers floating point and non-`const` `char*` or other pointer arguments, which the source copies as their address.
  - For a non-`const` char array, `CopyData` writes the 8-byte address but advances the cursor by `sizeof(char[N])` (FastLogger.hpp:145-146).
  - `PrintData<char*>` reads back 8 bytes, advances by `sizeof(char*)` and prints through a pointer that may no longer be valid (FastLogger.hpp:101-102).
  - So when `N != 8`, every later argument of that record is read from the wrong offset.
- Scalars are stored little-endian. The source uses the host's native layout.
- LogMessages.BlankMessage: a default-constructed `LogMessage` is taken to hold no formatter kinds and an all-zero record. In the source only queue slots in thread-local storage start zeroed. The local `LogMessage message;` in the drain (FastLogger.hpp:254) is indeterminate until `Dequeue` overwrites it.
- LogMessages.EncodeMessage: the bytes after the arguments are zero in the model, while the source leaves them indeterminate. Nothing reads them when kinds match.
- LogMessages.NewLogMessage: requires that the record fit in 1024 bytes. The source does not check this and would write past the buffer.
- LogFormatters.DecodeArg: returns no value where the source would read past the record. This happens only when the formatter's kinds do not match the record. The drain then writes an empty message text for that record.
- LogMessages.DecodeAfterEncode: requires text arguments without an embedded NUL. A `const char*` never has one. A `std::string` may, and then later arguments are misread (LogMessages.EmbeddedNulShiftsArguments).
- Virtual dispatch through `BaseLogFormatter` and the per-instantiation `instance` singleton become a formatter value carried in each message.
- `WriteLog` and the `FAST_LOG`/`LOG_*` macros that prefix `__PRETTY_FUNCTION__` are not modelled beyond `StringLiterals.MakeStringLiteral`.
- `LogManager.hpp` (background thread, `weak_ptr` expiry, directories and file names), `Singleton.hpp`, `NonCopyMovable.hpp` and `Macros.hpp` are not part of this model.
