/** The string operations the board page relies on: JavaScript's
    `toLowerCase` and `includes`. */
module Text {

  /** `toLowerCase` on one character. Only the Latin-1 range is modelled:
      A-Z and the upper-case letters U+00C0..U+00DE (except the multiplication
      sign U+00D7) move up by 32 code points; every other character is kept. */
  function LowerChar(c: char): (r: char)
    ensures IsUpper(c) ==> r as int == c as int + 32
    ensures !IsUpper(c) ==> r == c
  {
    if IsUpper(c) then (c as int + 32) as char else c
  }

  predicate IsUpper(c: char) {
    'A' <= c <= 'Z' || ('À' <= c <= 'Þ' && c != '×')
  }

  /** `s.toLowerCase()`: character by character, length kept. */
  function Lower(s: string): (r: string)
    ensures |r| == |s|
    ensures forall i :: 0 <= i < |s| ==> r[i] == LowerChar(s[i])
  {
    seq(|s|, i requires 0 <= i < |s| => LowerChar(s[i]))
  }

  /** `t` stands in `s` starting at position `i`. */
  predicate OccursAt(s: string, t: string, i: int) {
    0 <= i <= |s| - |t| && s[i..i + |t|] == t
  }

  /** `s.includes(t)`: `t` stands in `s` at some position. */
  predicate Contains(s: string, t: string) {
    exists i :: 0 <= i <= |s| - |t| && OccursAt(s, t, i)
  }

  /** Reference reading of a case-insensitive match: some segment of `s`,
      lower-cased, is the (lower-case) word `w`. */
  ghost predicate Mentions(s: string, w: string) {
    exists i, j :: 0 <= i <= j <= |s| && Lower(s[i..j]) == w
  }

  /** Lower-casing twice is lower-casing once. */
  lemma LowerIdempotent(s: string)
    ensures Lower(Lower(s)) == Lower(s)
  {
  }

  lemma LowerSlice(s: string, i: nat, j: nat)
    requires i <= j <= |s|
    ensures Lower(s)[i..j] == Lower(s[i..j])
  {
  }

  /** `t` cannot be found when, for every position that leaves room for it,
      the character `k` places further on differs from `t[k]`. */
  lemma NotContains(s: string, t: string, k: nat)
    requires k < |t|
    requires forall j :: k <= j <= |s| - |t| + k ==> s[j] != t[k]
    ensures !Contains(s, t)
  {
    forall i | 0 <= i <= |s| - |t| ensures !OccursAt(s, t, i) {
      assert s[i..i + |t|][k] == s[i + k];
    }
  }

  /** Lower-casing then `includes` is the segment-wise case-insensitive match,
      for any lower-case word. */
  lemma ContainsLowerIff(s: string, w: string)
    ensures Contains(Lower(s), w) <==> Mentions(s, w)
  {
    if Contains(Lower(s), w) {
      var i :| 0 <= i <= |Lower(s)| - |w| && OccursAt(Lower(s), w, i);
      LowerSlice(s, i, i + |w|);
    }
    if Mentions(s, w) {
      var i, j :| 0 <= i <= j <= |s| && Lower(s[i..j]) == w;
      LowerSlice(s, i, j);
      assert OccursAt(Lower(s), w, i);
    }
  }

  /** A word standing anywhere in `s`, in any case, is mentioned by `s`. */
  lemma MentionsInfix(a: string, k: string, b: string, w: string)
    requires Lower(k) == w
    ensures Mentions(a + k + b, w)
  {
    assert (a + k + b)[|a|..|a| + |k|] == k;
  }
}
