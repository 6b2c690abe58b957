/** The string operations the application uses: `toUpperCase`,
    `toLowerCase`, `startsWith` and `includes`, over ASCII letters. */
module Text {

  function UpperChar(c: char): char {
    if 'a' <= c <= 'z' then (c as int - 32) as char else c
  }

  function LowerChar(c: char): char {
    if 'A' <= c <= 'Z' then (c as int + 32) as char else c
  }

  /** No lower-case ASCII letter occurs. */
  predicate IsUpper(s: string) {
    forall i :: 0 <= i < |s| ==> !('a' <= s[i] <= 'z')
  }

  /** `s.toUpperCase()`. */
  function Upper(s: string): (r: string)
    ensures |r| == |s|
    ensures IsUpper(r)
  {
    seq(|s|, i requires 0 <= i < |s| => UpperChar(s[i]))
  }

  /** `s.toLowerCase()`. */
  function Lower(s: string): (r: string)
    ensures |r| == |s|
    ensures forall i :: 0 <= i < |r| ==> !('A' <= r[i] <= 'Z')
  {
    seq(|s|, i requires 0 <= i < |s| => LowerChar(s[i]))
  }

  /** Upper-casing leaves an upper-case string as it is, so it is idempotent. */
  lemma UpperFixesUpper(s: string)
    requires IsUpper(s)
    ensures Upper(s) == s
  {
  }

  lemma UpperIdempotent(s: string)
    ensures Upper(Upper(s)) == Upper(s)
  {
    UpperFixesUpper(Upper(s));
  }

  /** `s.startsWith(p)`. */
  predicate StartsWith(s: string, p: string) {
    |p| <= |s| && s[..|p|] == p
  }

  /** `t` occurs in `s` starting at position `i`. */
  ghost predicate OccursAt(s: string, t: string, i: int) {
    0 <= i && i + |t| <= |s| && s[i..i + |t|] == t
  }

  /** `s.includes(t)`: tries every starting position from the left. */
  predicate Contains(s: string, t: string)
    decreases |s|
  {
    StartsWith(s, t) || (|s| > 0 && Contains(s[1..], t))
  }

  /** `Contains` holds exactly when `t` occurs somewhere in `s`. */
  lemma {:induction false} ContainsIff(s: string, t: string)
    ensures Contains(s, t) <==> exists i :: OccursAt(s, t, i)
    decreases |s|
  {
    if StartsWith(s, t) {
      assert OccursAt(s, t, 0);
    }
    if |s| > 0 {
      ContainsIff(s[1..], t);
      if Contains(s[1..], t) {
        var i :| OccursAt(s[1..], t, i);
        assert s[1..][i..i + |t|] == s[i + 1..i + 1 + |t|];
        assert OccursAt(s, t, i + 1);
      }
      if i :| OccursAt(s, t, i) {
        if i > 0 {
          assert s[1..][i - 1..i - 1 + |t|] == s[i..i + |t|];
          assert OccursAt(s[1..], t, i - 1);
        } else {
          assert StartsWith(s, t);
        }
      }
    } else {
      if i :| OccursAt(s, t, i) {
        assert i == 0 && |t| == 0;
        assert StartsWith(s, t);
      }
    }
  }

  /** The empty string occurs in every string. */
  lemma ContainsEmpty(s: string)
    ensures Contains(s, "")
  {
    assert StartsWith(s, "");
  }
}
