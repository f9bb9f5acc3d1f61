/**
 * The .NET string operations the controller relies on, written out on
 * `seq<char>`: `ToLower`, `Trim`, `string.IsNullOrWhiteSpace`, ordinal
 * `Contains` and `StartsWith`.
 */
module Text {

  /** `char.IsWhiteSpace`: the Unicode space separators, the line and
      paragraph separators, U+0009..U+000D and U+0085. */
  predicate IsWhiteSpace(c: char)
    ensures c == ' ' || c == '\t' || c == '\n' || c == '\r' ==> IsWhiteSpace(c)
    ensures 'A' <= c <= 'Z' || 'a' <= c <= 'z' || '0' <= c <= '9' || c == '*' ==> !IsWhiteSpace(c)
  {
    || c == ' '
    || '\t' <= c <= '\r'
    || c == '\U{0085}'
    || c == '\U{00A0}'
    || c == '\U{1680}'
    || '\U{2000}' <= c <= '\U{200A}'
    || c == '\U{2028}'
    || c == '\U{2029}'
    || c == '\U{202F}'
    || c == '\U{205F}'
    || c == '\U{3000}'
  }

  /** `string.IsNullOrWhiteSpace` of a non-null string: empty or only white space. */
  predicate IsBlank(s: string)
    ensures s == [] ==> IsBlank(s)
    ensures forall i :: 0 <= i < |s| && ('A' <= s[i] <= 'Z' || 'a' <= s[i] <= 'z') ==> !IsBlank(s)
  {
    forall i :: 0 <= i < |s| ==> IsWhiteSpace(s[i])
  }

  /** Culture-invariant lowering of one character, for the ASCII capitals and
      the Latin-1 capitals U+00C0..U+00DE other than U+00D7 (this covers Æ, Ø, Å). */
  function LowerChar(c: char): char {
    if 'A' <= c <= 'Z' || ('\U{00C0}' <= c <= '\U{00DE}' && c != '\U{00D7}') then
      (c as int + 32) as char
    else
      c
  }

  predicate IsLowerCase(s: string) {
    forall i :: 0 <= i < |s| ==> LowerChar(s[i]) == s[i]
  }

  /** `ToLower()`. */
  function Lower(s: string): (r: string)
    ensures |r| == |s|
    ensures forall i :: 0 <= i < |s| ==> r[i] == LowerChar(s[i])
    ensures IsLowerCase(r)
    ensures IsLowerCase(s) ==> r == s
    ensures forall i :: 0 <= i < |s| ==> (IsWhiteSpace(r[i]) <==> IsWhiteSpace(s[i]))
  {
    seq(|s|, i requires 0 <= i < |s| => LowerChar(s[i]))
  }

  /** Number of white-space characters at the start of `s`. */
  function LeadingWhiteSpace(s: string): (k: nat)
    ensures k <= |s|
    ensures forall i :: 0 <= i < k ==> IsWhiteSpace(s[i])
    ensures k < |s| ==> !IsWhiteSpace(s[k])
  {
    if |s| > 0 && IsWhiteSpace(s[0]) then 1 + LeadingWhiteSpace(s[1..]) else 0
  }

  /** Number of white-space characters at the end of `s`. */
  function TrailingWhiteSpace(s: string): (k: nat)
    ensures k <= |s|
    ensures forall i :: |s| - k <= i < |s| ==> IsWhiteSpace(s[i])
    ensures k < |s| ==> !IsWhiteSpace(s[|s| - 1 - k])
  {
    if |s| > 0 && IsWhiteSpace(s[|s| - 1]) then 1 + TrailingWhiteSpace(s[..|s| - 1]) else 0
  }

  predicate IsTrimmed(s: string) {
    |s| == 0 || (!IsWhiteSpace(s[0]) && !IsWhiteSpace(s[|s| - 1]))
  }

  /** `t` sits in `s` starting at index `k`. */
  predicate OccursAt(s: string, t: string, k: nat) {
    k + |t| <= |s| && s[k..k + |t|] == t
  }

  /** `Trim()`: drops the white space at both ends and keeps the rest. */
  function Trim(s: string): (r: string)
    ensures IsTrimmed(r)
    ensures r == [] <==> IsBlank(s)
    ensures exists k: nat :: OccursAt(s, r, k) && IsBlank(s[..k]) && IsBlank(s[k + |r|..])
    ensures IsTrimmed(s) ==> r == s
    ensures IsLowerCase(s) ==> IsLowerCase(r)
  {
    var a := LeadingWhiteSpace(s);
    if a == |s| then
      assert OccursAt(s, [], 0);
      []
    else
      var b := |s| - TrailingWhiteSpace(s);
      assert !IsWhiteSpace(s[a]);
      assert IsBlank(s[..a]) && IsBlank(s[b..]);
      assert OccursAt(s, s[a..b], a);
      s[a..b]
  }

  /** Ordinal `s.Contains(t)`. */
  predicate Contains(s: string, t: string)
    ensures t == [] ==> Contains(s, t)
    ensures Contains(s, t) ==> |t| <= |s|
    ensures t == s ==> Contains(s, t)
  {
    assert OccursAt(s, t, 0) <== t == [];
    assert OccursAt(s, t, 0) <== t == s;
    exists k: nat | k <= |s| - |t| :: OccursAt(s, t, k)
  }

  /** Ordinal `s.StartsWith(p)`. */
  predicate StartsWith(s: string, p: string)
    ensures p == [] ==> StartsWith(s, p)
    ensures StartsWith(s, p) ==> |p| <= |s| && Contains(s, p)
  {
    OccursAt(s, p, 0)
  }

  lemma {:induction false} LowerIdempotent(s: string)
    ensures Lower(Lower(s)) == Lower(s)
  {
  }

  /** A string that starts with a non-blank prefix is not blank. */
  lemma StartsWithNonBlank(s: string, p: string)
    requires StartsWith(s, p) && !IsBlank(p)
    ensures !IsBlank(s)
  {
    var i :| 0 <= i < |p| && !IsWhiteSpace(p[i]);
    assert s[i] == p[i];
  }
}
