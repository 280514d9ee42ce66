/**
 * `StringLiteral<N...>`: a compile-time concatenation of string literals
 * (char arrays of `N` bytes, the last one the terminator) into one
 * NUL-terminated array of `TotalSize = N1 + ... + Nk` bytes.
 */
module StringLiterals {
  import opened Bytes

  /** `Value` up to and including the terminator written by the constructor, and `TotalSize`. */
  datatype StringLiteral = StringLiteral(value: seq<Byte>, totalSize: nat)

  /** Every argument is a char array of at least one byte (its terminator). */
  predicate AreLiterals(strs: seq<seq<Byte>>)
  {
    forall i :: 0 <= i < |strs| ==> |strs[i]| >= 1
  }

  /** `(N + ... + 0)`. */
  function TotalSize(strs: seq<seq<Byte>>): nat
  {
    if strs == [] then 0 else |strs[0]| + TotalSize(strs[1..])
  }

  /** The arguments with each one's last byte (its terminator) dropped, run together. */
  function Bodies(strs: seq<seq<Byte>>): (r: seq<Byte>)
    requires AreLiterals(strs)
    ensures |r| + |strs| == TotalSize(strs)
  {
    if strs == [] then [] else strs[0][..|strs[0]| - 1] + Bodies(strs[1..])
  }

  /** Where the `i`-th argument's text starts in `Value`: the `dest` pointer before its `copy_n`. */
  function Offset(strs: seq<seq<Byte>>, i: nat): nat
    requires AreLiterals(strs) && i <= |strs|
  {
    if i == 0 then 0 else |strs[0]| - 1 + Offset(strs[1..], i - 1)
  }

  /** The constructor: copy `N - 1` bytes of each argument in turn, then write one NUL. */
  function MakeStringLiteral(strs: seq<seq<Byte>>): (r: StringLiteral)
    requires |strs| >= 1 && AreLiterals(strs)
    ensures r.totalSize == TotalSize(strs)
    ensures |r.value| + |strs| == r.totalSize + 1
    ensures |r.value| <= r.totalSize
    ensures |r.value| == r.totalSize <==> |strs| == 1
    ensures |r.value| >= 1 && r.value[|r.value| - 1] == Nul
  {
    StringLiteral(Bodies(strs) + [Nul], TotalSize(strs))
  }

  /** Byte `k` of the `i`-th argument (not its terminator) lands at `Offset(i) + k`. */
  lemma {:induction false} LayoutAt(strs: seq<seq<Byte>>, i: nat, k: nat)
    requires |strs| >= 1 && AreLiterals(strs)
    requires i < |strs| && k < |strs[i]| - 1
    ensures Offset(strs, i) + k < |MakeStringLiteral(strs).value| - 1
    ensures MakeStringLiteral(strs).value[Offset(strs, i) + k] == strs[i][k]
  {
    BodiesAt(strs, i, k);
  }

  lemma {:induction false} BodiesAt(strs: seq<seq<Byte>>, i: nat, k: nat)
    requires AreLiterals(strs)
    requires i < |strs| && k < |strs[i]| - 1
    ensures Offset(strs, i) + k < |Bodies(strs)|
    ensures Bodies(strs)[Offset(strs, i) + k] == strs[i][k]
  {
    var rest := strs[1..];
    assert AreLiterals(rest) by {
      forall j | 0 <= j < |rest| ensures |rest[j]| >= 1 {
        assert rest[j] == strs[j + 1];
      }
    }
    if i > 0 {
      assert rest[i - 1] == strs[i];
      BodiesAt(rest, i - 1, k);
    }
  }

  lemma {:induction false} BodiesNoNul(strs: seq<seq<Byte>>)
    requires AreLiterals(strs)
    requires forall i :: 0 <= i < |strs| ==> NoNul(strs[i][..|strs[i]| - 1])
    ensures NoNul(Bodies(strs))
  {
    if strs != [] {
      var rest := strs[1..];
      forall j | 0 <= j < |rest| ensures |rest[j]| >= 1 && NoNul(rest[j][..|rest[j]| - 1]) {
        assert rest[j] == strs[j + 1];
      }
      BodiesNoNul(rest);
      var h := strs[0][..|strs[0]| - 1];
      assert NoNul(h);
      assert Bodies(strs) == h + Bodies(rest);
      forall p | 0 <= p < |Bodies(strs)| ensures Bodies(strs)[p] != Nul {
        if p >= |h| {
          assert Bodies(strs)[p] == Bodies(rest)[p - |h|];
        }
      }
    }
  }

  /**
   * Read as a C string (what the formatter keeps as its format text), the
   * literal is the arguments' texts run together, provided no argument holds
   * a NUL before its terminator.
   */
  lemma {:induction false} FormatTextIsConcatenation(strs: seq<seq<Byte>>)
    requires |strs| >= 1 && AreLiterals(strs)
    requires forall i :: 0 <= i < |strs| ==> NoNul(strs[i][..|strs[i]| - 1])
    ensures CStr(MakeStringLiteral(strs).value) == Bodies(strs)
  {
    var b := Bodies(strs);
    BodiesNoNul(strs);
    assert (b + [Nul])[0..|b| + 1] == b + [Nul];
    FindNulAfterText(b + [Nul], 0, b);
  }
}
