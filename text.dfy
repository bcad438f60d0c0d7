/**
 * The JavaScript string primitives the core relies on: `trim`, `toLowerCase`,
 * `includes` and `slice(0, n)`, on strings of Unicode scalar values.
 */
module Text {

  /** The characters `String.prototype.trim` strips: ECMAScript WhiteSpace and LineTerminator. */
  predicate IsSpace(c: char)
  {
    c == '\t' || c == '\n' || c == '\U{000B}' || c == '\U{000C}' || c == '\r' || c == ' '
    || c == '\U{00A0}' || c == '\U{1680}' || ('\U{2000}' <= c <= '\U{200A}')
    || c == '\U{2028}' || c == '\U{2029}' || c == '\U{202F}' || c == '\U{205F}'
    || c == '\U{3000}' || c == '\U{FEFF}'
  }

  predicate AllSpace(s: string)
  {
    forall i :: 0 <= i < |s| ==> IsSpace(s[i])
  }

  /** The length of the whitespace run at the start of `s`. */
  function LeadingSpace(s: string): (n: nat)
    ensures n <= |s|
    ensures forall i :: 0 <= i < n ==> IsSpace(s[i])
    ensures n < |s| ==> !IsSpace(s[n])
  {
    if s == [] || !IsSpace(s[0]) then 0
    else
      var n := LeadingSpace(s[1..]);
      assert forall i :: 1 <= i < n + 1 ==> s[i] == s[1..][i - 1];
      n + 1
  }

  /** The length of the whitespace run at the end of `s`. */
  function TrailingSpace(s: string): (n: nat)
    ensures n <= |s|
    ensures forall i :: |s| - n <= i < |s| ==> IsSpace(s[i])
    ensures n < |s| ==> !IsSpace(s[|s| - n - 1])
  {
    if s == [] || !IsSpace(s[|s| - 1]) then 0
    else
      var n := TrailingSpace(s[..|s| - 1]);
      assert forall i :: |s| - 1 - n <= i < |s| - 1 ==> s[i] == s[..|s| - 1][i];
      n + 1
  }

  /** `r` is `s` with exactly the whitespace before position `k` and after `k + |r|` removed. */
  predicate StripsTo(s: string, r: string, k: int)
  {
    && 0 <= k <= |s| - |r| && r == s[k..k + |r|]
    && (forall i :: 0 <= i < k ==> IsSpace(s[i]))
    && (forall i :: k + |r| <= i < |s| ==> IsSpace(s[i]))
  }

  /**
   * `s.trim()`: the slice of `s` left once the whitespace at both ends is gone.
   * Only whitespace is removed, the kept part is contiguous, and it neither starts
   * nor ends with whitespace; it is empty exactly when `s` is all whitespace.
   */
  function Trim(s: string): (r: string)
    ensures exists k :: StripsTo(s, r, k)
    ensures r != [] ==> !IsSpace(r[0]) && !IsSpace(r[|r| - 1])
    ensures r == [] <==> AllSpace(s)
  {
    var a := LeadingSpace(s);
    if a == |s| then
      assert StripsTo(s, [], a);
      []
    else
      var b := TrailingSpace(s);
      assert b < |s| - a;
      var r := s[a..|s| - b];
      assert StripsTo(s, r, a);
      assert !AllSpace(s) by { assert !IsSpace(s[a]); }
      r
  }

  /** Trimming twice is trimming once. */
  lemma TrimIdempotent(s: string)
    ensures Trim(Trim(s)) == Trim(s)
  {
    var r := Trim(s);
    if r != [] {
      assert LeadingSpace(r) == 0;
      assert TrailingSpace(r) == 0;
    }
  }

  /** What `toLowerCase` does to one character: ASCII letters and the Kelvin sign, which lowers to 'k'. */
  function LowerChar(c: char): char
  {
    if 'A' <= c <= 'Z' then (c as int + 32) as char
    else if c == '\U{212A}' then 'k'
    else c
  }

  function ToLower(s: string): (r: string)
    ensures |r| == |s|
    ensures forall i :: 0 <= i < |s| ==> r[i] == LowerChar(s[i])
  {
    seq(|s|, i requires 0 <= i < |s| => LowerChar(s[i]))
  }

  /** `s.includes(t)`, computed by trying each start position in turn. */
  function Contains(s: string, t: string): bool
    decreases |s|
  {
    if |t| > |s| then false
    else if s[..|t|] == t then true
    else Contains(s[1..], t)
  }

  /** `t` occurs in `s` starting at position `i`. */
  predicate OccursAt(s: string, t: string, i: int)
  {
    0 <= i <= |s| - |t| && s[i..i + |t|] == t
  }

  /** An occurrence in the tail of `s` is an occurrence in `s`, one place later. */
  lemma OccursShift(s: string, t: string, i: nat)
    requires s != []
    ensures OccursAt(s[1..], t, i) <==> OccursAt(s, t, i + 1)
  {
    if i <= |s| - 1 - |t| {
      assert s[1..][i..i + |t|] == s[i + 1..i + 1 + |t|];
    }
  }

  /** `Contains` holds exactly when `t` occurs in `s` at some position. */
  lemma {:induction false} ContainsIff(s: string, t: string)
    ensures Contains(s, t) <==> exists i :: OccursAt(s, t, i)
    decreases |s|
  {
    if |t| > |s| {
    } else if s[..|t|] == t {
      assert OccursAt(s, t, 0);
    } else {
      ContainsIff(s[1..], t);
      if exists i :: OccursAt(s, t, i) {
        var i :| OccursAt(s, t, i);
        assert i != 0;
        OccursShift(s, t, i - 1);
      }
      if Contains(s[1..], t) {
        var i :| OccursAt(s[1..], t, i);
        OccursShift(s, t, i);
      }
    }
  }

  /** Appending text on either side keeps an occurrence. */
  lemma ContainsAppend(a: string, b: string, t: string)
    ensures Contains(a, t) ==> Contains(a + b, t)
    ensures Contains(b, t) ==> Contains(a + b, t)
  {
    ContainsIff(a, t);
    ContainsIff(b, t);
    ContainsIff(a + b, t);
    if Contains(a, t) {
      var i :| OccursAt(a, t, i);
      assert OccursAt(a + b, t, i) by {
        assert (a + b)[i..i + |t|] == a[i..i + |t|];
      }
    }
    if Contains(b, t) {
      var i :| OccursAt(b, t, i);
      assert OccursAt(a + b, t, |a| + i) by {
        assert (a + b)[|a| + i..|a| + i + |t|] == b[i..i + |t|];
      }
    }
  }

  /** A string contains itself. */
  lemma ContainsSelf(t: string)
    ensures Contains(t, t)
  {
    assert t[..|t|] == t;
  }
}
