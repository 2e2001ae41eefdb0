/** String operations the release browser relies on: `toLowerCase` (restricted to
    ASCII) and `includes` (substring search). */
module Text {

  predicate IsUpper(c: char) {
    'A' <= c <= 'Z'
  }

  /** ASCII lowering of one character: upper-case letters move to their
      lower-case counterpart, every other character is left alone. */
  function LowerChar(c: char): (r: char)
    ensures !IsUpper(r)
    ensures !IsUpper(c) ==> r == c
    ensures IsUpper(c) ==> 'a' <= r <= 'z' && r as int - c as int == 'a' as int - 'A' as int
  {
    if IsUpper(c) then (c as int - 'A' as int + 'a' as int) as char else c
  }

  /** `s.toLowerCase()`, character by character. */
  function Lower(s: string): (r: string)
    ensures |r| == |s|
    ensures forall i :: 0 <= i < |s| ==> r[i] == LowerChar(s[i])
  {
    seq(|s|, i requires 0 <= i < |s| => LowerChar(s[i]))
  }

  /** Lowering twice is lowering once. */
  lemma LowerIdempotent(s: string)
    ensures Lower(Lower(s)) == Lower(s)
  {
    assert forall i :: 0 <= i < |s| ==> LowerChar(LowerChar(s[i])) == LowerChar(s[i]);
  }

  predicate IsPrefix(p: string, s: string) {
    |p| <= |s| && s[..|p|] == p
  }

  /** `h.includes(n)`: `n` is a prefix of `h` or of one of its suffixes. */
  function Contains(h: string, n: string): (r: bool)
    ensures IsPrefix(n, h) ==> r
    ensures r ==> |n| <= |h|
    decreases |h|
  {
    IsPrefix(n, h) || (|h| > 0 && Contains(h[1..], n))
  }

  /** `n` occurs in `h` starting at position `i`. */
  ghost predicate OccursAt(h: string, n: string, i: int) {
    0 <= i && i + |n| <= |h| && h[i..i + |n|] == n
  }

  /** The recursive search agrees with the positional definition of a substring. */
  lemma {:induction false} ContainsIff(h: string, n: string)
    ensures Contains(h, n) <==> exists i :: OccursAt(h, n, i)
    decreases |h|
  {
    if IsPrefix(n, h) {
      assert OccursAt(h, n, 0);
    }
    if OccursAt(h, n, 0) {
      assert h[..|n|] == h[0..|n|];
    }
    if |h| > 0 {
      ContainsIff(h[1..], n);
      forall i | OccursAt(h[1..], n, i)
        ensures OccursAt(h, n, i + 1)
      {
        assert h[1..][i..i + |n|] == h[i + 1..i + 1 + |n|];
      }
      forall i | OccursAt(h, n, i) && i > 0
        ensures OccursAt(h[1..], n, i - 1)
      {
        assert h[1..][i - 1..i - 1 + |n|] == h[i..i + |n|];
      }
    }
  }

  /** The empty string is contained in every string (`"x".includes("")` is true). */
  lemma ContainsEmpty(h: string)
    ensures Contains(h, "")
  {
  }

  /** A string is contained in any string built around it. */
  lemma ContainsInfix(p: string, x: string, q: string)
    ensures Contains(p + x + q, x)
  {
    assert (p + x + q)[|p|..|p| + |x|] == x;
    assert OccursAt(p + x + q, x, |p|);
    ContainsIff(p + x + q, x);
  }

  /** Surrounding text fixed, the middle part is determined by the whole. */
  lemma InfixInjective(p: string, a: string, b: string, q: string)
    requires p + a + q == p + b + q
    ensures a == b
  {
    assert |a| == |b|;
    assert a == (p + a + q)[|p|..|p| + |a|];
    assert b == (p + b + q)[|p|..|p| + |b|];
  }
}
