/**
 * The arguments a log call passes and the kinds a formatter expects for them.
 * Text (`std::string`, `const char*`, char arrays) travels as its bytes plus
 * a NUL; every other argument is copied in its native layout, which the model
 * fixes as little-endian two's complement of `sizeof(T)` bytes.
 */
module Args {
  import opened Bytes

  /** An integral type other than the character types: `sizeof` and signedness (`short` is (2, true)). */
  datatype IntType = IntType(width: nat, signed: bool)

  predicate ValidIntType(t: IntType)
  {
    t.width == 2 || t.width == 4 || t.width == 8
  }

  /** What the formatter's decayed type list says to read at each placeholder. */
  datatype Kind =
    | TextKind             // std::string, const char*
    | CharKind             // char, signed char, unsigned char (int8_t, uint8_t)
    | BoolKind             // bool
    | IntKind(t: IntType)  // short, int, long, long long and their unsigned forms

  datatype Arg =
    | Text(s: seq<Byte>)
    | Char(c: Byte)
    | Bool(b: bool)
    | Int(t: IntType, v: int)

  function KindOf(a: Arg): Kind
  {
    match a
    case Text(_) => TextKind
    case Char(_) => CharKind
    case Bool(_) => BoolKind
    case Int(t, _) => IntKind(t)
  }

  function KindsOf(args: seq<Arg>): (ks: seq<Kind>)
    ensures |ks| == |args|
    ensures forall i :: 0 <= i < |args| ==> ks[i] == KindOf(args[i])
  {
    if args == [] then [] else [KindOf(args[0])] + KindsOf(args[1..])
  }

  /** 256 to the power `w`: the number of values `w` bytes hold. */
  function Pow256(w: nat): (p: nat)
    ensures p >= 1
  {
    if w == 0 then 1 else 256 * Pow256(w - 1)
  }

  /** The values of `t`: [0, 256^w) unsigned, [-256^w/2, 256^w/2) signed. */
  predicate InRange(t: IntType, v: int)
    requires ValidIntType(t)
  {
    if t.signed then -128 * Pow256(t.width - 1) <= v < 128 * Pow256(t.width - 1)
    else 0 <= v < Pow256(t.width)
  }

  /**
   * An argument the encoder can hand to the decoder intact: an integer in
   * its type's range, and text without an embedded NUL (a `const char*` never
   * has one; a `std::string` may).
   */
  predicate WellFormed(a: Arg)
  {
    match a
    case Text(s) => NoNul(s)
    case Int(t, v) => ValidIntType(t) && InRange(t, v)
    case _ => true
  }

  predicate AllWellFormed(args: seq<Arg>)
  {
    forall i :: 0 <= i < |args| ==> WellFormed(args[i])
  }

  lemma {:induction false} AllWellFormedTail(args: seq<Arg>)
    requires args != [] && AllWellFormed(args)
    ensures WellFormed(args[0]) && AllWellFormed(args[1..])
  {
    forall i | 0 <= i < |args| - 1 ensures WellFormed(args[1..][i]) {
      assert args[1..][i] == args[i + 1];
    }
  }

  /** How far the write (and read) cursor moves over this argument: `size() + 1` or `sizeof(T)`. */
  function SizeOf(a: Arg): nat
  {
    match a
    case Text(s) => |s| + 1
    case Char(_) => 1
    case Bool(_) => 1
    case Int(t, _) => t.width
  }

  /** The `w` bytes of `u`, least significant first. */
  function LittleEndian(u: nat, w: nat): (r: seq<Byte>)
    ensures |r| == w
  {
    if w == 0 then [] else [(u % 256) as char] + LittleEndian(u / 256, w - 1)
  }

  /** The unsigned value of bytes stored least significant first. */
  function FromLittleEndian(bs: seq<Byte>): nat
  {
    if bs == [] then 0 else bs[0] as int + 256 * FromLittleEndian(bs[1..])
  }

  lemma {:induction false} LittleEndianRoundTrip(u: nat, w: nat)
    requires u < Pow256(w)
    ensures FromLittleEndian(LittleEndian(u, w)) == u
  {
    if w > 0 {
      var q, r := u / 256, u % 256;
      assert u == 256 * q + r;
      assert q < Pow256(w - 1);
      LittleEndianRoundTrip(q, w - 1);
      assert LittleEndian(u, w)[1..] == LittleEndian(q, w - 1);
    }
  }

  /** The bit pattern of `v` as an unsigned number of `t.width` bytes. */
  function TwosComplement(t: IntType, v: int): (u: nat)
    requires ValidIntType(t) && InRange(t, v)
    ensures u < Pow256(t.width)
  {
    if v < 0 then v + Pow256(t.width) else v
  }

  /** The value of type `t` whose bit pattern is `u`. */
  function FromTwosComplement(t: IntType, u: nat): int
    requires ValidIntType(t)
  {
    if t.signed && u >= 128 * Pow256(t.width - 1) then u - Pow256(t.width) else u
  }

  lemma {:induction false} TwosComplementRoundTrip(t: IntType, v: int)
    requires ValidIntType(t) && InRange(t, v)
    ensures FromTwosComplement(t, TwosComplement(t, v)) == v
  {
    assert Pow256(t.width) == 256 * Pow256(t.width - 1);
  }

  /** Store a scalar in its native layout (`*reinterpret_cast<T*>(p) = x`). */
  function StoreInt(t: IntType, v: int): (r: seq<Byte>)
    requires ValidIntType(t) && InRange(t, v)
    ensures |r| == t.width
  {
    LittleEndian(TwosComplement(t, v), t.width)
  }

  /** Load a scalar from its native layout (`*reinterpret_cast<const T*>(p)`). */
  function LoadInt(t: IntType, bs: seq<Byte>): int
    requires ValidIntType(t)
  {
    FromTwosComplement(t, FromLittleEndian(bs))
  }

  /** Loading what was stored gives back the value, for every in-range value of every integral type. */
  lemma {:induction false} StoreLoadRoundTrip(t: IntType, v: int)
    requires ValidIntType(t) && InRange(t, v)
    ensures LoadInt(t, StoreInt(t, v)) == v
  {
    LittleEndianRoundTrip(TwosComplement(t, v), t.width);
    TwosComplementRoundTrip(t, v);
  }
}
