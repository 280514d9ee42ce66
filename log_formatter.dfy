/**
 * `LogFormatter<FormatString, CArgs...>`: a format text and the kinds of the
 * arguments its call site passes. `Evaluate` walks the text, copies the
 * literal spans, and at each "{}" reads the next argument out of a record
 * (`PrintData`) and writes its text.
 */
module LogFormatters {
  import opened Bytes
  import opened Args
  import opened StringLiterals

  /** The formatter value: what the per-call-site `instance` singleton holds. */
  datatype LogFormatter = LogFormatter(formatString: seq<Byte>, kinds: seq<Kind>)

  /**
   * The constructor: `_mFormatString` is a `string_view` over the literal's
   * `Value`, built from a `const char*`, so it stops at the first NUL.
   */
  function NewLogFormatter(lit: StringLiteral, kinds: seq<Kind>): (f: LogFormatter)
    ensures NoNul(f.formatString) && f.formatString <= lit.value && f.kinds == kinds
    ensures |f.formatString| < |lit.value| ==> lit.value[|f.formatString|] == Nul
  {
    LogFormatter(CStr(lit.value), kinds)
  }

  // ---------------------------------------------------------------- text of values

  function DigitChar(d: nat): (c: Byte)
    requires d < 10
  {
    (48 + d) as char
  }

  predicate IsDigit(c: Byte)
  {
    '0' <= c <= '9'
  }

  /** `ostream << n` for a non-negative integer: decimal, no leading zeros. */
  function Decimal(n: nat): (r: seq<Byte>)
    ensures |r| >= 1 && forall i :: 0 <= i < |r| ==> IsDigit(r[i])
    ensures r[0] == '0' ==> n == 0
  {
    if n < 10 then [DigitChar(n)] else Decimal(n / 10) + [DigitChar(n % 10)]
  }

  function DigitValue(c: Byte): (d: nat)
    requires IsDigit(c)
    ensures d < 10
  {
    c as int - '0' as int
  }

  /** The number a string of decimal digits denotes. */
  function DigitsValue(ds: seq<Byte>): nat
    requires forall i :: 0 <= i < |ds| ==> IsDigit(ds[i])
  {
    if ds == [] then 0 else 10 * DigitsValue(ds[..|ds| - 1]) + DigitValue(ds[|ds| - 1])
  }

  /** Reading the decimal text back gives the number. */
  lemma {:induction false} DecimalRoundTrip(n: nat)
    ensures DigitsValue(Decimal(n)) == n
  {
    if n >= 10 {
      var ds := Decimal(n);
      assert ds[..|ds| - 1] == Decimal(n / 10);
      DecimalRoundTrip(n / 10);
    }
  }

  /**
   * What `__stream << value` writes: text as is, a character type as that
   * character, `bool` as 1 or 0, an integer in decimal with a leading '-'.
   */
  function Show(a: Arg): seq<Byte>
  {
    match a
    case Text(s) => s
    case Char(c) => [c]
    case Bool(b) => if b then "1" else "0"
    case Int(_, v) => if v < 0 then "-" + Decimal(-v) else Decimal(v)
  }

  // ---------------------------------------------------------------- reading a record

  /**
   * Read one argument of kind `k` at `pos`: text up to its NUL (the cursor
   * then steps over the NUL), a scalar from its `sizeof(T)` bytes. `None`
   * when the read would leave `data` (the source reads past the buffer).
   */
  function DecodeArg(k: Kind, data: seq<Byte>, pos: nat): (r: Option<(Arg, nat)>)
    ensures r.Some? ==> KindOf(r.value.0) == k
    ensures r.Some? ==> r.value.1 == pos + SizeOf(r.value.0) <= |data|
  {
    match k
    case TextKind =>
      (match FindNul(data, pos)
       case Some(e) => Some((Text(data[pos..e]), e + 1))
       case None => None)
    case CharKind =>
      if pos + 1 <= |data| then Some((Char(data[pos]), pos + 1)) else None
    case BoolKind =>
      if pos + 1 <= |data| then Some((Bool(data[pos] != Nul), pos + 1)) else None
    case IntKind(t) =>
      if ValidIntType(t) && pos + t.width <= |data|
      then Some((Int(t, LoadInt(t, data[pos..pos + t.width])), pos + t.width))
      else None
  }

  /** `PrintData<T>`: the text of the argument at `pos` and the cursor just past it. */
  function PrintData(k: Kind, data: seq<Byte>, pos: nat): (r: Option<(seq<Byte>, nat)>)
    ensures r.Some? <==> DecodeArg(k, data, pos).Some?
    ensures r.Some? ==> pos < r.value.1 <= |data|
    ensures r.Some? && k == TextKind ==> r.value.1 == pos + |r.value.0| + 1 && NoNul(r.value.0)
  {
    match DecodeArg(k, data, pos)
    case Some((a, next)) => Some((Show(a), next))
    case None => None
  }

  // ---------------------------------------------------------------- walking the format text

  predicate PlaceholderAt(s: seq<Byte>, j: nat)
  {
    j + 1 < |s| && s[j] == '{' && s[j + 1] == '}'
  }

  /** The first placeholder in `s` at or after `from`. */
  function FindPlaceholderFrom(s: seq<Byte>, from: nat): (r: Option<nat>)
    decreases |s| - from
    ensures r.Some? ==> from <= r.value && PlaceholderAt(s, r.value)
    ensures r.Some? ==> forall j :: from <= j < r.value ==> !PlaceholderAt(s, j)
    ensures r.None? ==> forall j :: from <= j < |s| ==> !PlaceholderAt(s, j)
  {
    if from + 1 >= |s| then None
    else if PlaceholderAt(s, from) then Some(from)
    else FindPlaceholderFrom(s, from + 1)
  }

  /** `strstr(s, "{}")`: the first placeholder in `s`. */
  function FindPlaceholder(s: seq<Byte>): (r: Option<nat>)
    ensures r.Some? ==> PlaceholderAt(s, r.value)
    ensures r.Some? ==> forall j :: 0 <= j < r.value ==> !PlaceholderAt(s, j)
    ensures r.None? ==> forall j :: 0 <= j < |s| ==> !PlaceholderAt(s, j)
  {
    FindPlaceholderFrom(s, 0)
  }

  /**
   * `Format<Args...>`: with no kinds left, or no "{}" left, the rest of the
   * text verbatim; otherwise the text before the first "{}", the next
   * argument, and the rest formatted with the remaining kinds.
   */
  function Format(fmt: seq<Byte>, kinds: seq<Kind>, data: seq<Byte>, pos: nat): Option<seq<Byte>>
    decreases |kinds|
  {
    if kinds == [] then Some(fmt)
    else match FindPlaceholder(fmt)
      case None => Some(fmt)
      case Some(i) =>
        match PrintData(kinds[0], data, pos)
        case None => None
        case Some((text, next)) =>
          match Format(fmt[i + 2..], kinds[1..], data, next)
          case None => None
          case Some(rest) => Some(fmt[..i] + text + rest)
  }

  lemma {:induction false} FormatStep(fmt: seq<Byte>, kinds: seq<Kind>, data: seq<Byte>, pos: nat, i: nat, text: seq<Byte>, next: nat, rest: seq<Byte>)
    requires kinds != [] && FindPlaceholder(fmt) == Some(i)
    requires PrintData(kinds[0], data, pos) == Some((text, next))
    requires Format(fmt[i + 2..], kinds[1..], data, next) == Some(rest)
    ensures Format(fmt, kinds, data, pos) == Some(fmt[..i] + text + rest)
  {
  }

  lemma {:induction false} FormatNoPlaceholder(fmt: seq<Byte>, kinds: seq<Kind>, data: seq<Byte>, pos: nat)
    requires FindPlaceholder(fmt).None?
    ensures Format(fmt, kinds, data, pos) == Some(fmt)
  {
  }

  /** `Evaluate`: format the record's arguments, which start at `pos`, with this formatter. */
  function Evaluate(f: LogFormatter, data: seq<Byte>, pos: nat): Option<seq<Byte>>
  {
    Format(f.formatString, f.kinds, data, pos)
  }

  // ---------------------------------------------------------------- what the output is

  /** The format text with its placeholders filled, in order, by the arguments' text. */
  function Render(fmt: seq<Byte>, args: seq<Arg>): seq<Byte>
    decreases |args|
  {
    if args == [] then fmt
    else match FindPlaceholder(fmt)
      case None => fmt
      case Some(i) => fmt[..i] + Show(args[0]) + Render(fmt[i + 2..], args[1..])
  }

  lemma {:induction false} RenderStep(fmt: seq<Byte>, args: seq<Arg>, i: nat)
    requires args != [] && FindPlaceholder(fmt) == Some(i)
    ensures Render(fmt, args) == fmt[..i] + Show(args[0]) + Render(fmt[i + 2..], args[1..])
  {
  }

  lemma {:induction false} RenderNoPlaceholder(fmt: seq<Byte>, args: seq<Arg>)
    requires FindPlaceholder(fmt).None?
    ensures Render(fmt, args) == fmt
  {
  }

  /** Literal spans put back together with a "{}" between each two. */
  function Join(pieces: seq<seq<Byte>>): seq<Byte>
    requires |pieces| >= 1
  {
    if |pieces| == 1 then pieces[0] else pieces[0] + "{}" + Join(pieces[1..])
  }

  /**
   * Literal spans with the given texts between them; once the texts run out
   * the remaining spans are joined by "{}" again, and texts left over when
   * the spans run out are dropped.
   */
  function Splice(pieces: seq<seq<Byte>>, texts: seq<seq<Byte>>): seq<Byte>
    requires |pieces| >= 1
  {
    if |pieces| == 1 then pieces[0]
    else if texts == [] then Join(pieces)
    else pieces[0] + texts[0] + Splice(pieces[1..], texts[1..])
  }

  function ShowAll(args: seq<Arg>): (r: seq<seq<Byte>>)
    ensures |r| == |args| && forall i :: 0 <= i < |args| ==> r[i] == Show(args[i])
  {
    if args == [] then [] else [Show(args[0])] + ShowAll(args[1..])
  }

  predicate NoPlaceholder(s: seq<Byte>)
  {
    forall j :: 0 <= j < |s| ==> !PlaceholderAt(s, j)
  }

  /** The first "{}" of `p + "{}" + rest` is the one after `p` when `p` holds none. */
  lemma {:induction false} FirstPlaceholderAfter(p: seq<Byte>, rest: seq<Byte>)
    requires NoPlaceholder(p)
    ensures FindPlaceholder(p + "{}" + rest) == Some(|p|)
  {
    var s := p + "{}" + rest;
    assert PlaceholderAt(s, |p|);
    forall j | 0 <= j < |p| ensures !PlaceholderAt(s, j) {
      if j + 1 < |p| {
        assert !PlaceholderAt(p, j);
      } else {
        assert s[j + 1] == '{';
      }
    }
  }

  /**
   * Rendering a text made of placeholder-free spans joined by "{}" puts the
   * arguments' text between the spans, in order, ignores extra arguments, and
   * leaves the remaining "{}" in place when the arguments run out.
   */
  lemma {:induction false} RenderSplices(pieces: seq<seq<Byte>>, args: seq<Arg>)
    requires |pieces| >= 1
    requires forall i :: 0 <= i < |pieces| ==> NoPlaceholder(pieces[i])
    ensures Render(Join(pieces), args) == Splice(pieces, ShowAll(args))
  {
    if |pieces| == 1 {
      if args != [] {
        assert NoPlaceholder(pieces[0]);
      }
    } else if args != [] {
      var rest := Join(pieces[1..]);
      FirstPlaceholderAfter(pieces[0], rest);
      var s := pieces[0] + "{}" + rest;
      assert s[..|pieces[0]|] == pieces[0];
      assert s[|pieces[0]| + 2..] == rest;
      assert ShowAll(args)[1..] == ShowAll(args[1..]);
      RenderSplices(pieces[1..], args[1..]);
    }
  }
}
