/**
 * The string operations the views rely on: `toLowerCase`, `startsWith` and `includes`.
 * Strings are sequences of Unicode scalar values.
 */
module Text {

  type String = seq<char>

  /** An upper-case letter that `toLowerCase` maps one step down: ASCII A-Z and the Latin-1 capitals
      U+00C0..U+00DE except the multiplication sign U+00D7. */
  predicate IsUpper(c: char) {
    ('A' <= c <= 'Z') || ('\U{00C0}' <= c <= '\U{00DE}' && c != '\U{00D7}')
  }

  /** `toLowerCase` on one character: an upper-case letter goes to its small letter, 32 code points further on. */
  function LowerChar(c: char): (d: char)
    ensures IsUpper(c) ==> d as int == c as int + 32
    ensures !IsUpper(c) ==> d == c
    ensures !IsUpper(d)
  {
    if IsUpper(c) then (c as int + 32) as char else c
  }

  /** `toLowerCase` on a string: same length, no capital left, every capital replaced by its small letter
      and every other character kept. */
  function Lower(s: String): (r: String)
    ensures |r| == |s|
    ensures forall i :: 0 <= i < |r| ==> !IsUpper(r[i])
    ensures forall i :: 0 <= i < |s| && !IsUpper(s[i]) ==> r[i] == s[i]
    ensures forall i :: 0 <= i < |s| && IsUpper(s[i]) ==> r[i] as int == s[i] as int + 32
  {
    seq(|s|, i requires 0 <= i < |s| => LowerChar(s[i]))
  }

  /** `s.startsWith(p)`. */
  predicate StartsWith(s: String, p: String) {
    |p| <= |s| && s[..|p|] == p
  }

  /** `q` occurs in `s` at position `i`. */
  predicate OccursAt(s: String, q: String, i: int) {
    0 <= i && i + |q| <= |s| && s[i..i + |q|] == q
  }

  /** Occurrences in `s[1..]` are the occurrences in `s` one position further on. */
  lemma OccursInTail(s: String, q: String)
    requires |s| > 0
    ensures (exists i :: OccursAt(s[1..], q, i)) <==> (exists j :: 1 <= j && OccursAt(s, q, j))
  {
    if i :| OccursAt(s[1..], q, i) {
      assert s[1..][i..i + |q|] == s[i + 1..i + 1 + |q|];
      assert OccursAt(s, q, i + 1);
    }
    if j :| 1 <= j && OccursAt(s, q, j) {
      assert s[1..][j - 1..j - 1 + |q|] == s[j..j + |q|];
      assert OccursAt(s[1..], q, j - 1);
    }
  }

  /** `s.includes(q)`: a scan from the left that tries every start position. */
  function Contains(s: String, q: String): (b: bool)
    ensures b <==> exists i :: OccursAt(s, q, i)
    decreases |s|
  {
    if StartsWith(s, q) then
      assert OccursAt(s, q, 0);
      true
    else if |s| <= |q| then
      false
    else
      OccursInTail(s, q);
      assert !OccursAt(s, q, 0);
      Contains(s[1..], q)
  }

  /** Lower-casing twice is lower-casing once. */
  lemma LowerIdempotent(s: String)
    ensures Lower(Lower(s)) == Lower(s)
  {
  }

  /** The empty query occurs in every string, as `"".includes("")` and `"abc".includes("")` do. */
  lemma EmptyQueryAlwaysContained(s: String)
    ensures Contains(s, [])
  {
  }

  /** A string without the query's first character does not contain the query. */
  lemma {:induction false} AbsentFirstChar(s: String, q: String)
    requires |q| > 0 && forall k :: 0 <= k < |s| ==> s[k] != q[0]
    ensures !Contains(s, q)
    decreases |s|
  {
    if |s| > 0 {
      assert !StartsWith(s, q) by {
        if |q| <= |s| {
          assert s[..|q|][0] == s[0];
        }
      }
      AbsentFirstChar(s[1..], q);
    }
  }
}
