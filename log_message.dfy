/**
 * `LogMessage`: a formatter reference and a 1024-byte record whose first
 * byte is the level tag and whose following bytes hold the arguments, in
 * call order, as written by `CopyData`/`CopyArgs`.
 */
module LogMessages {
  import opened Bytes
  import opened Args
  import opened LogLevels
  import opened LogFormatters

  /** `sizeof(_mDataBuffer)`. */
  const RecordSize: nat := 1024
  /** `sizeof(LogLevel)`: where the arguments start. */
  const LevelSize: nat := 1

  type RecordBuffer = s: seq<Byte> | |s| == RecordSize witness seq(RecordSize, _ => Nul)

  datatype LogMessage = LogMessage(formatter: LogFormatter, data: RecordBuffer)

  /** What a default-constructed `LogMessage` is taken to hold. */
  function BlankMessage(): (m: LogMessage)
    ensures m.formatter.kinds == [] && forall i :: 0 <= i < RecordSize ==> m.data[i] == Nul
  {
    LogMessage(LogFormatter([], []), seq(RecordSize, _ => Nul))
  }

  // ---------------------------------------------------------------- the bytes written

  /** An argument the C++ type system can pass: integers lie within their type. */
  predicate Encodable(a: Arg)
  {
    a.Int? ==> ValidIntType(a.t) && InRange(a.t, a.v)
  }

  predicate AllEncodable(args: seq<Arg>)
  {
    forall i :: 0 <= i < |args| ==> Encodable(args[i])
  }

  lemma {:induction false} AllEncodableTail(args: seq<Arg>)
    requires args != [] && AllEncodable(args)
    ensures Encodable(args[0]) && AllEncodable(args[1..])
  {
    forall i | 0 <= i < |args| - 1 ensures Encodable(args[1..][i]) {
      assert args[1..][i] == args[i + 1];
    }
  }

  /** The bytes `CopyData` writes for one argument. */
  function EncodeArg(a: Arg): (r: seq<Byte>)
    requires Encodable(a)
    ensures |r| == SizeOf(a)
  {
    match a
    case Text(s) => s + [Nul]
    case Char(c) => [c]
    case Bool(b) => [if b then 1 as char else Nul]
    case Int(t, v) => StoreInt(t, v)
  }

  /** The sum of the arguments' sizes. */
  function EncodedSize(args: seq<Arg>): nat
  {
    if args == [] then 0 else SizeOf(args[0]) + EncodedSize(args[1..])
  }

  /** The bytes `CopyArgs` writes: each argument's bytes, in call order. */
  function EncodeArgs(args: seq<Arg>): (r: seq<Byte>)
    requires AllEncodable(args)
    ensures |r| == EncodedSize(args)
  {
    if args == [] then [] else EncodeArg(args[0]) + EncodeArgs(args[1..])
  }

  /** The record prefix the constructors write: the level tag, then the arguments. */
  function EncodeRecord(level: LogLevel, args: seq<Arg>): (r: seq<Byte>)
    requires AllEncodable(args)
    ensures |r| == LevelSize + EncodedSize(args)
  {
    [Tag(level)] + EncodeArgs(args)
  }

  /** Where argument `i` starts in the record. */
  function ArgOffset(args: seq<Arg>, i: nat): nat
    requires i <= |args|
  {
    LevelSize + EncodedSize(args[..i])
  }

  lemma {:induction false} EncodedSizeSplit(args: seq<Arg>, i: nat)
    requires i <= |args|
    ensures EncodedSize(args) == EncodedSize(args[..i]) + EncodedSize(args[i..])
  {
    if i > 0 {
      assert args[1..][..i - 1] == args[..i][1..];
      assert args[1..][i - 1..] == args[i..];
      EncodedSizeSplit(args[1..], i - 1);
    }
  }

  /** The bytes of a non-empty argument list are those of its head followed by those of its tail. */
  lemma {:induction false} EncodedArgsSplit(args: seq<Arg>, data: seq<Byte>, pos: nat, end: nat)
    requires args != [] && AllEncodable(args)
    requires pos + EncodedSize(args) == end <= |data| && data[pos..end] == EncodeArgs(args)
    ensures AllEncodable(args[1..]) && Encodable(args[0])
    ensures pos + SizeOf(args[0]) + EncodedSize(args[1..]) == end
    ensures data[pos..pos + SizeOf(args[0])] == EncodeArg(args[0])
    ensures data[pos + SizeOf(args[0])..end] == EncodeArgs(args[1..])
  {
    AllEncodableTail(args);
    SliceSplit(data, pos, EncodeArg(args[0]), EncodeArgs(args[1..]), SizeOf(args[0]), end);
  }

  /**
   * In bytes holding `EncodeArgs(args)` from `pos`, argument `i`'s bytes
   * start at `start`, right after the bytes of the arguments before it.
   */
  lemma {:induction false} ArgBytesAt(args: seq<Arg>, data: seq<Byte>, pos: nat, end: nat, i: nat, start: nat)
    requires AllEncodable(args) && i < |args|
    requires pos + EncodedSize(args) == end <= |data| && data[pos..end] == EncodeArgs(args)
    requires start == pos + EncodedSize(args[..i])
    ensures start + SizeOf(args[i]) <= end
    ensures data[start..start + SizeOf(args[i])] == EncodeArg(args[i])
  {
    EncodedArgsSplit(args, data, pos, end);
    if i == 0 {
      assert args[..0] == [];
    } else {
      var rest := args[1..];
      assert EncodedSize(args[..i]) == SizeOf(args[0]) + EncodedSize(rest[..i - 1]) by {
        assert args[..i][1..] == rest[..i - 1];
      }
      assert rest[i - 1] == args[i];
      ArgBytesAt(rest, data, pos + SizeOf(args[0]), end, i - 1, start);
    }
  }

  /**
   * The layout of a record: the level tag in byte 0, and argument `i`'s
   * bytes at `ArgOffset(i)`, right after those of the arguments before it,
   * the record ending with the last argument's bytes.
   */
  lemma {:induction false} RecordLayout(level: LogLevel, args: seq<Arg>, i: nat)
    requires AllEncodable(args) && i < |args|
    ensures EncodeRecord(level, args)[0] == Tag(level)
    ensures ArgOffset(args, 0) == LevelSize
    ensures ArgOffset(args, i + 1) == ArgOffset(args, i) + SizeOf(args[i])
    ensures ArgOffset(args, |args|) == |EncodeRecord(level, args)|
    ensures ArgOffset(args, i + 1) <= |EncodeRecord(level, args)| &&
            EncodeRecord(level, args)[ArgOffset(args, i)..ArgOffset(args, i + 1)] == EncodeArg(args[i])
  {
    ArgOffsetSteps(args, i);
    var r, end := EncodeRecord(level, args), LevelSize + EncodedSize(args);
    SliceSplit(r, 0, [Tag(level)], EncodeArgs(args), LevelSize, end);
    ArgBytesAt(args, r, LevelSize, end, i, ArgOffset(args, i));
  }

  /** The offsets start after the tag, step by each argument's size, and end at the record's length. */
  lemma {:induction false} ArgOffsetSteps(args: seq<Arg>, i: nat)
    requires i < |args|
    ensures ArgOffset(args, 0) == LevelSize
    ensures ArgOffset(args, i + 1) == ArgOffset(args, i) + SizeOf(args[i])
    ensures ArgOffset(args, |args|) == LevelSize + EncodedSize(args)
  {
    assert args[..0] == [];
    assert args[..|args|] == args;
    EncodedSizeSnoc(args, i);
  }

  lemma {:induction false} EncodedSizeSnoc(args: seq<Arg>, i: nat)
    requires i < |args|
    ensures EncodedSize(args[..i + 1]) == EncodedSize(args[..i]) + SizeOf(args[i])
  {
    EncodedSizeSplit(args[..i + 1], i);
    assert args[..i + 1][..i] == args[..i];
    assert args[..i + 1][i..] == [args[i]];
    assert EncodedSize([args[i]]) == SizeOf(args[i]) + EncodedSize([]);
  }

  /** The whole record: the written prefix, and NUL bytes (unspecified in the source) after it. */
  function EncodeMessage(f: LogFormatter, level: LogLevel, args: seq<Arg>): (m: LogMessage)
    requires AllEncodable(args) && LevelSize + EncodedSize(args) <= RecordSize
    ensures m.formatter == f
    ensures m.data[..LevelSize + EncodedSize(args)] == EncodeRecord(level, args)
  {
    var prefix := EncodeRecord(level, args);
    LogMessage(f, prefix + seq(RecordSize - |prefix|, _ => Nul))
  }

  /**
   * A blank record with the level tag in byte 0, after the arguments' bytes
   * are written from byte 1 and nothing else is touched, is the whole record
   * `EncodeMessage` describes.
   */
  lemma {:induction false} RecordAfterWrites(before: seq<Byte>, after: seq<Byte>, level: LogLevel, args: seq<Arg>, end: nat)
    requires AllEncodable(args) && end == LevelSize + EncodedSize(args) <= RecordSize
    requires |before| == |after| == RecordSize
    requires before[0] == Tag(level) && forall j :: LevelSize <= j < RecordSize ==> before[j] == Nul
    requires after[..LevelSize] == before[..LevelSize] && after[LevelSize..end] == EncodeArgs(args)
    requires after[end..] == before[end..]
    ensures after == EncodeRecord(level, args) + seq(RecordSize - end, _ => Nul)
  {
    assert after[..end] == after[..LevelSize] + after[LevelSize..end];
    assert after[..LevelSize] == [Tag(level)];
    assert after[end..] == seq(RecordSize - end, _ => Nul);
    assert after == after[..end] + after[end..];
  }

  // ---------------------------------------------------------------- the writers

  /** `memcpy(buf + pos, src, |src|)`. */
  method Memcpy(buf: array<Byte>, pos: nat, src: seq<Byte>)
    requires pos + |src| <= buf.Length
    modifies buf
    ensures buf[..pos] == old(buf[..pos])
    ensures buf[pos..pos + |src|] == src
    ensures buf[pos + |src|..] == old(buf[pos + |src|..])
  {
    var k := 0;
    while k < |src|
      invariant 0 <= k <= |src|
      invariant forall j :: 0 <= j < pos ==> buf[j] == old(buf[j])
      invariant forall j :: 0 <= j < k ==> buf[pos + j] == src[j]
      invariant forall j :: pos + k <= j < buf.Length ==> buf[j] == old(buf[j])
    {
      buf[pos + k] := src[k];
      k := k + 1;
    }
  }

  /** `CopyData`: write one argument at `pos` and return the cursor past it. */
  method CopyData(buf: array<Byte>, pos: nat, a: Arg) returns (next: nat)
    requires Encodable(a) && pos + SizeOf(a) <= buf.Length
    modifies buf
    ensures next == pos + SizeOf(a)
    ensures buf[..pos] == old(buf[..pos])
    ensures buf[pos..next] == EncodeArg(a)
    ensures buf[next..] == old(buf[next..])
  {
    match a
    case Text(s) =>
      Memcpy(buf, pos, s);
      buf[pos + |s|] := Nul;
      next := pos + |s| + 1;
      assert buf[pos..next] == buf[pos..pos + |s|] + [buf[pos + |s|]];
    case Char(c) =>
      buf[pos] := c;
      next := pos + 1;
    case Bool(b) =>
      buf[pos] := if b then 1 as char else Nul;
      next := pos + 1;
    case Int(t, v) =>
      Memcpy(buf, pos, StoreInt(t, v));
      next := pos + t.width;
  }

  /** `CopyArgs` (both overloads): write the arguments one after another from `pos`. */
  method CopyArgs(buf: array<Byte>, pos: nat, args: seq<Arg>) returns (end: nat)
    requires |args| >= 1 && AllEncodable(args) && pos + EncodedSize(args) <= buf.Length
    modifies buf
    ensures end == pos + EncodedSize(args)
    ensures buf[..pos] == old(buf[..pos])
    ensures buf[pos..end] == EncodeArgs(args)
    ensures buf[end..] == old(buf[end..])
    decreases |args|
  {
    ghost var before := buf[..];
    var next := CopyData(buf, pos, args[0]);
    if |args| == 1 {
      end := next;
      assert EncodeArgs(args) == EncodeArg(args[0]) + [];
    } else {
      ghost var mid := buf[..];
      var rest := args[1..];
      AllEncodableTail(args);
      end := CopyArgs(buf, next, rest);
      AdjacentWrites(before, mid, buf[..], pos, next, end, EncodeArg(args[0]), EncodeArgs(rest));
    }
  }

  /**
   * The `LogMessage(formatter, level, args...)` constructors: store the level
   * tag in byte 0 and, when there are arguments, copy them from byte 1 on.
   * The caller guarantees that they fit, as the source assumes without a check.
   */
  method NewLogMessage(f: LogFormatter, level: LogLevel, args: seq<Arg>) returns (m: LogMessage)
    requires AllEncodable(args) && LevelSize + EncodedSize(args) <= RecordSize
    ensures m == EncodeMessage(f, level, args)
  {
    var buf := new Byte[RecordSize](_ => Nul);
    buf[0] := Tag(level);
    ghost var before := buf[..];
    var end := LevelSize;
    if |args| > 0 {
      end := CopyArgs(buf, LevelSize, args);
    }
    RecordAfterWrites(before, buf[..], level, args, end);
    m := LogMessage(f, buf[..]);
  }

  // ---------------------------------------------------------------- reading back what was written

  /** `PrintData` at the offset where `CopyData` wrote an argument reads that argument and steps past it. */
  lemma {:induction false} DecodeAfterEncode(a: Arg, data: seq<Byte>, pos: nat)
    requires WellFormed(a)
    requires pos + SizeOf(a) <= |data| && data[pos..pos + SizeOf(a)] == EncodeArg(a)
    ensures DecodeArg(KindOf(a), data, pos) == Some((a, pos + SizeOf(a)))
    ensures PrintData(KindOf(a), data, pos) == Some((Show(a), pos + SizeOf(a)))
  {
    match a
    case Text(s) =>
      FindNulAfterText(data, pos, s);
      assert data[pos..pos + |s|] == data[pos..pos + |s| + 1][..|s|];
    case Char(c) =>
      assert data[pos] == data[pos..pos + 1][0];
    case Bool(b) =>
      assert data[pos] == data[pos..pos + 1][0];
    case Int(t, v) =>
      StoreLoadRoundTrip(t, v);
  }

  /**
   * Formatting the arguments back out of the bytes `CopyArgs` wrote, which
   * run from `pos` to `end`, gives the format text with each placeholder
   * filled by the original argument.
   */
  lemma {:induction false} FormatAfterEncode(fmt: seq<Byte>, args: seq<Arg>, data: seq<Byte>, pos: nat, end: nat)
    requires AllEncodable(args) && AllWellFormed(args)
    requires pos + EncodedSize(args) == end <= |data| && data[pos..end] == EncodeArgs(args)
    ensures Format(fmt, KindsOf(args), data, pos) == Some(Render(fmt, args))
    decreases |args|
  {
    if args == [] {
    } else if FindPlaceholder(fmt).None? {
      FormatNoPlaceholder(fmt, KindsOf(args), data, pos);
      RenderNoPlaceholder(fmt, args);
    } else {
      var i := FindPlaceholder(fmt).value;
      var a, rest := args[0], args[1..];
      AllWellFormedTail(args);
      EncodedArgsSplit(args, data, pos, end);
      var next := pos + SizeOf(a);
      var ks := KindsOf(args);
      assert ks[0] == KindOf(a) && ks[1..] == KindsOf(rest);
      DecodeAfterEncode(a, data, pos);
      assert PrintData(ks[0], data, pos) == Some((Show(a), next));
      FormatAfterEncode(fmt[i + 2..], rest, data, next, end);
      assert Format(fmt[i + 2..], ks[1..], data, next) == Some(Render(fmt[i + 2..], rest));
      FormatStep(fmt, ks, data, pos, i, Show(a), next, Render(fmt[i + 2..], rest));
      RenderStep(fmt, args, i);
    }
  }

  /**
   * Why text must be NUL-free: a `std::string` holding a NUL is copied whole,
   * but read back only up to that NUL, so every later argument is read from
   * the wrong bytes. Here "a\0b" then 'c' comes out as "ab".
   */
  lemma {:induction false} EmbeddedNulShiftsArguments()
    ensures var args := [Text(['a', Nul, 'b']), Char('c')];
            AllEncodable(args) && !AllWellFormed(args) &&
            Format("{}{}", KindsOf(args), EncodeArgs(args), 0) == Some("ab") &&
            Render("{}{}", args) == ['a', Nul, 'b', 'c']
  {
    var args := [Text(['a', Nul, 'b']), Char('c')];
    var data := EncodeArgs(args);
    assert args[1..] == [Char('c')] && args[1..][1..] == [];
    assert EncodeArgs(args[1..]) == ['c'];
    assert data == ['a', Nul, 'b', Nul] + ['c'];
    assert !WellFormed(args[0]) by { assert args[0].s[1] == Nul; }
    var fmt: seq<Byte> := "{}{}";
    assert PlaceholderAt(fmt, 0);
    assert FindPlaceholder(fmt) == Some(0);
    assert FindPlaceholder(fmt[2..]) == Some(0) by { assert PlaceholderAt(fmt[2..], 0); }
    assert FindNul(data, 0) == Some(1) by { assert data[0] != Nul && data[1] == Nul; }
    assert PrintData(TextKind, data, 0) == Some((['a'], 2)) by { assert data[0..1] == ['a']; }
    assert PrintData(CharKind, data, 2) == Some((['b'], 3));
    var ks := KindsOf(args);
    assert ks[1..] == [CharKind] && ks[0] == TextKind;
    var tail := fmt[2..];
    assert tail[2..] == [] && ks[1..][1..] == [];
    assert Format(tail[2..], ks[1..][1..], data, 3) == Some([]);
    FormatStep(tail, ks[1..], data, 2, 0, ['b'], 3, []);
    assert tail[..0] + ['b'] + [] == ['b'];
    FormatStep(fmt, ks, data, 0, 0, ['a'], 2, ['b']);
    assert fmt[..0] + ['a'] + ['b'] == "ab";
    RenderStep(fmt, args, 0);
    RenderStep(fmt[2..], args[1..], 0);
  }

  /**
   * Evaluating a record built from `args` with the formatter of the same
   * call site finds the level in byte 0 and renders exactly the arguments.
   */
  lemma {:induction false} EvaluateAfterEncode(f: LogFormatter, level: LogLevel, args: seq<Arg>)
    requires AllEncodable(args) && AllWellFormed(args)
    requires LevelSize + EncodedSize(args) <= RecordSize
    requires f.kinds == KindsOf(args)
    ensures LevelOfTag(EncodeMessage(f, level, args).data[0]) == Some(level)
    ensures Evaluate(f, EncodeMessage(f, level, args).data, LevelSize) == Some(Render(f.formatString, args))
  {
    var m := EncodeMessage(f, level, args);
    var end := LevelSize + EncodedSize(args);
    SliceSplit(m.data, 0, [Tag(level)], EncodeArgs(args), LevelSize, end);
    FormatAfterEncode(f.formatString, args, m.data, LevelSize, end);
  }
}
