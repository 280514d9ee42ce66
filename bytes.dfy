/**
 * C-level text: the `char` byte the logger copies around, the NUL terminator,
 * and reading a NUL-terminated string out of a byte region.
 */
module Bytes {

  /** A C `char`: one byte. Written as a Dafny char so that format text reads as text. */
  type Byte = c: char | c as int < 256 witness '\0'

  const Nul: Byte := '\0'

  datatype Option<T> = None | Some(value: T)

  predicate NoNul(s: seq<Byte>) {
    forall i :: 0 <= i < |s| ==> s[i] != Nul
  }

  /** Index of the first NUL at or after `pos`, if there is one in `data`. */
  function FindNul(data: seq<Byte>, pos: nat): (r: Option<nat>)
    decreases |data| - pos
    ensures r.Some? ==> pos <= r.value < |data| && data[r.value] == Nul && NoNul(data[pos..r.value])
    ensures r.None? ==> pos >= |data| || NoNul(data[pos..])
  {
    if pos >= |data| then None
    else if data[pos] == Nul then Some(pos)
    else FindNul(data, pos + 1)
  }

  /**
   * The text a `const char*` denotes: everything before the first NUL
   * (all of `s` when it holds none).
   */
  function CStr(s: seq<Byte>): (r: seq<Byte>)
    ensures NoNul(r) && r <= s
    ensures |r| < |s| ==> s[|r|] == Nul
  {
    match FindNul(s, 0)
    case Some(e) => s[..e]
    case None => s
  }

  /** Reading back a NUL-terminated copy of NUL-free text yields that text. */
  lemma {:induction false} FindNulAfterText(data: seq<Byte>, pos: nat, s: seq<Byte>)
    requires NoNul(s)
    requires pos + |s| < |data| && data[pos..pos + |s| + 1] == s + [Nul]
    ensures FindNul(data, pos) == Some(pos + |s|)
  {
    assert data[pos + |s|] == (s + [Nul])[|s|];
    forall i | pos <= i < pos + |s| ensures data[i] != Nul {
      assert data[i] == s[i - pos];
    }
  }

  /** A slice holding `x + y` holds `x` and then `y`. */
  lemma {:induction false} SliceSplit<T>(data: seq<T>, pos: nat, x: seq<T>, y: seq<T>, m: nat, end: nat)
    requires |x| == m && pos + m + |y| == end <= |data| && data[pos..end] == x + y
    ensures data[pos..pos + m] == x
    ensures data[pos + m..end] == y
  {
    assert data[pos..pos + m] == data[pos..end][..m];
    assert data[pos + m..end] == data[pos..end][m..];
  }

  /** Two writes side by side: the second leaves the first's bytes alone, so together they wrote `x + y`. */
  lemma {:induction false} AdjacentWrites<T>(before: seq<T>, mid: seq<T>, after: seq<T>, pos: nat, next: nat, end: nat, x: seq<T>, y: seq<T>)
    requires |before| == |mid| == |after| && pos <= next <= end <= |after|
    requires mid[..pos] == before[..pos] && mid[pos..next] == x && mid[next..] == before[next..]
    requires after[..next] == mid[..next] && after[next..end] == y && after[end..] == mid[end..]
    ensures after[..pos] == before[..pos]
    ensures after[pos..end] == x + y
    ensures after[end..] == before[end..]
  {
    assert after[..pos] == after[..next][..pos];
    assert mid[..pos] == mid[..next][..pos];
    assert after[pos..next] == after[..next][pos..];
    assert mid[pos..next] == mid[..next][pos..];
    assert after[pos..end] == after[pos..next] + after[next..end];
    assert after[end..] == mid[next..][end - next..];
    assert before[end..] == before[next..][end - next..];
  }

  /** Concatenation is associative (stated for sequences of any element type, so no element is ever inspected). */
  lemma {:induction false} AppendAssoc<T>(x: seq<T>, y: seq<T>, z: seq<T>)
    ensures (x + y) + z == x + (y + z)
  {
  }
}
