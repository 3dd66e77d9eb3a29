/**
 * The string operations the core relies on: JavaScript's `toLowerCase`
 * (restricted to ASCII letters) and `String.prototype.includes`.
 */
module Text {

  /** Lower-cases one ASCII letter; every other character is left as it is. */
  function ToLowerChar(c: char): (r: char)
    ensures 'A' <= c <= 'Z' ==> 'a' <= r <= 'z' && r as int == c as int - 'A' as int + 'a' as int
    ensures !('A' <= c <= 'Z') ==> r == c
  {
    if 'A' <= c <= 'Z' then (c as int - 'A' as int + 'a' as int) as char else c
  }

  /** `s.toLowerCase()`, for ASCII letters. */
  function ToLower(s: string): (r: string)
    ensures |r| == |s|
    ensures forall i | 0 <= i < |s| :: r[i] == ToLowerChar(s[i])
  {
    if s == [] then [] else [ToLowerChar(s[0])] + ToLower(s[1..])
  }

  /** Lower-casing twice is lower-casing once. */
  lemma ToLowerIdempotent(s: string)
    ensures ToLower(ToLower(s)) == ToLower(s)
  {
    assert forall i | 0 <= i < |s| :: ToLower(ToLower(s))[i] == ToLower(s)[i];
  }

  /** `s.includes(sub)`: `sub` occurs as a contiguous piece of `s`. */
  predicate Includes(s: string, sub: string)
    decreases |s|
  {
    sub <= s || (|s| > 0 && Includes(s[1..], sub))
  }

  /** `Includes` holds exactly when `sub` starts at some position of `s`. */
  lemma {:induction false} IncludesAt(s: string, sub: string)
    ensures Includes(s, sub) <==> exists k | 0 <= k <= |s| :: sub <= s[k..]
  {
    assert s[0..] == s;
    if s != [] {
      IncludesAt(s[1..], sub);
      if sub <= s {
        assert sub <= s[0..];
      }
      if Includes(s[1..], sub) {
        var k :| 0 <= k <= |s| - 1 && sub <= s[1..][k..];
        assert s[1..][k..] == s[k + 1..];
      }
      if exists k | 0 <= k <= |s| :: sub <= s[k..] {
        var k :| 0 <= k <= |s| && sub <= s[k..];
        if k > 0 {
          assert s[1..][k - 1..] == s[k..];
        }
      }
    }
  }
}
