/**
 * The two JavaScript library behaviours the components rely on:
 * `Array.prototype.slice(start)` with its clamping of negative and
 * out-of-range starts, and the host's `String.prototype.contains`
 * (substring search).
 */
module Js {

  function Min(a: int, b: int): int { if a <= b then a else b }
  function Max(a: int, b: int): int { if a <= b then b else a }

  /** The index `slice(start)` starts copying from: a negative start counts
      from the end, and both directions are clamped to the array. */
  function SliceStart(len: nat, start: int): (k: nat)
    ensures k <= len
    ensures start < 0 ==> k == Max(len + start, 0)
    ensures start >= 0 ==> k == Min(start, len)
  {
    if start < 0 then
      (if len + start < 0 then 0 else len + start)
    else if start > len then len
    else start
  }

  /** `s.slice(start)`: a suffix of `s`, of the length the clamping gives. */
  function Slice<T>(s: seq<T>, start: int): (r: seq<T>)
    ensures |r| <= |s| && r == s[|s| - |r|..]
    ensures start < 0 ==> |r| == Min(-start, |s|)
    ensures start >= 0 ==> |r| == Max(|s| - start, 0)
  {
    s[SliceStart(|s|, start)..]
  }

  /** `slice(-0)` is `slice(0)`: the whole array. */
  lemma SliceNegZero<T>(s: seq<T>)
    ensures Slice(s, -0) == s
  {
  }

  /** `slice(-n)` for `0 < n <= |s|` keeps exactly the last `n` elements in order. */
  lemma SliceLast<T>(s: seq<T>, n: int)
    requires 0 < n <= |s|
    ensures Slice(s, -n) == s[|s| - n..]
  {
  }

  /** `q` occurs in `s` starting at position `i`. */
  predicate OccursAt(s: string, q: string, i: int)
  {
    0 <= i && i + |q| <= |s| && s[i..i + |q|] == q
  }

  /** The host's `s.contains(q)`: `q` is a substring of `s`. */
  predicate Contains(s: string, q: string)
    decreases |s|
  {
    q <= s || (s != [] && Contains(s[1..], q))
  }

  /** `Contains` agrees with the positional definition of a substring, both ways. */
  lemma {:induction false} ContainsIff(s: string, q: string)
    ensures Contains(s, q) <==> exists i :: OccursAt(s, q, i)
    decreases |s|
  {
    if q <= s {
      assert OccursAt(s, q, 0);
    } else if s != [] {
      ContainsIff(s[1..], q);
      if Contains(s[1..], q) {
        var j :| OccursAt(s[1..], q, j);
        assert s[1..][j..j + |q|] == s[j + 1..j + 1 + |q|];
        assert OccursAt(s, q, j + 1);
      }
      if exists i :: OccursAt(s, q, i) {
        var i :| OccursAt(s, q, i);
        if i > 0 {
          assert s[1..][i - 1..i - 1 + |q|] == s[i..i + |q|];
          assert OccursAt(s[1..], q, i - 1);
        }
      }
    }
  }
}
