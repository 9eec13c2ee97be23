/**
 * Character classes and substring search over `string` (= seq<char>).
 * Case mapping and the whitespace class are the ASCII ones.
 */
module Strings {

  predicate IsDigit(c: char) { '0' <= c <= '9' }

  predicate IsLowerAlnum(c: char) { 'a' <= c <= 'z' || IsDigit(c) }

  predicate IsUpper(c: char) { 'A' <= c <= 'Z' }

  /** Python's `str.isspace` restricted to ASCII: the characters `strip()` and `\s` skip. */
  predicate IsSpace(c: char) {
    c == ' ' || c == '\t' || c == '\n' || c == '\r' || c == '\U{B}' || c == '\U{C}'
    || ('\U{1C}' <= c <= '\U{1F}')
  }

  predicate AllDigits(s: string) { forall i :: 0 <= i < |s| ==> IsDigit(s[i]) }

  predicate HasDigit(s: string) { exists i :: 0 <= i < |s| && IsDigit(s[i]) }

  function LowerChar(c: char): (r: char)
    ensures IsUpper(c) ==> 'a' <= r <= 'z' && r as int == c as int + 32
    ensures !IsUpper(c) ==> r == c
  {
    if IsUpper(c) then (c as int + 32) as char else c
  }

  /** `s.lower()`. */
  function Lower(s: string): (r: string)
    ensures |r| == |s|
    ensures forall i :: 0 <= i < |s| ==> r[i] == LowerChar(s[i])
  {
    if s == [] then [] else [LowerChar(s[0])] + Lower(s[1..])
  }

  /** Lower-casing compared character by character. */
  lemma LowerCharwise(s: string, t: string)
    requires |s| == |t| && forall h :: 0 <= h < |s| ==> LowerChar(s[h]) == t[h]
    ensures Lower(s) == t
  {
  }

  predicate StartsWith(s: string, t: string) { |t| <= |s| && s[..|t|] == t }

  /** `t` occurs in `s` starting at index `i`. */
  predicate OccursAt(s: string, t: string, i: nat) { i + |t| <= |s| && s[i..i + |t|] == t }

  /** Python's `t in s`. */
  predicate Contains(s: string, t: string)
    decreases |s|
  {
    StartsWith(s, t) || (|s| > 0 && Contains(s[1..], t))
  }

  lemma {:induction false} ContainsIffOccurs(s: string, t: string)
    ensures Contains(s, t) <==> exists i: nat :: OccursAt(s, t, i)
  {
    if StartsWith(s, t) {
      assert OccursAt(s, t, 0);
    } else if |s| > 0 {
      ContainsIffOccurs(s[1..], t);
      if Contains(s[1..], t) {
        var i: nat :| OccursAt(s[1..], t, i);
        assert s[1..][i..i + |t|] == s[i + 1..i + 1 + |t|];
        assert OccursAt(s, t, i + 1);
      } else {
        forall i: nat | 0 < i && OccursAt(s, t, i) ensures false {
          assert s[1..][i - 1..i - 1 + |t|] == s[i..i + |t|];
          assert OccursAt(s[1..], t, i - 1);
        }
      }
    }
  }

  /** An occurrence inside one part is an occurrence in any string around it. */
  lemma ContainsInContext(a: string, s: string, b: string, t: string)
    requires Contains(s, t)
    ensures Contains(a + s + b, t)
  {
    ContainsIffOccurs(s, t);
    var i: nat :| OccursAt(s, t, i);
    assert (a + s + b)[|a| + i..|a| + i + |t|] == s[i..i + |t|];
    assert OccursAt(a + s + b, t, |a| + i);
    ContainsIffOccurs(a + s + b, t);
  }

  /** A string lacking one of the characters of `t` does not contain `t`. */
  lemma {:induction false} NotContainsForeignChar(s: string, t: string, k: nat)
    requires k < |t| && t[k] !in s
    ensures !Contains(s, t)
  {
    ContainsIffOccurs(s, t);
    forall i: nat ensures !OccursAt(s, t, i) {
      if i + |t| <= |s| {
        assert s[i + k] in s;
        assert s[i..i + |t|][k] == s[i + k];
      }
    }
  }

  /** Lower-casing works character by character, so it distributes over concatenation. */
  lemma {:induction false} LowerConcat(a: string, b: string)
    ensures Lower(a + b) == Lower(a) + Lower(b)
  {
    var l := Lower(a + b);
    forall i | 0 <= i < |l| ensures l[i] == (Lower(a) + Lower(b))[i] {
      if i < |a| {
        assert (a + b)[i] == a[i];
      } else {
        assert (a + b)[i] == b[i - |a|];
      }
    }
  }

  /** The end of the whitespace run starting at `j`. */
  function SkipSpace(s: string, j: nat): (k: nat)
    requires j <= |s|
    ensures j <= k <= |s|
    ensures forall h :: j <= h < k ==> IsSpace(s[h])
    ensures k < |s| ==> !IsSpace(s[k])
    decreases |s| - j
  {
    if j < |s| && IsSpace(s[j]) then SkipSpace(s, j + 1) else j
  }

  /** Whitespace followed by a non-space ends exactly where the whitespace does. */
  lemma {:induction false} SkipSpaces(p: string, ws: string, q: string)
    requires forall h :: 0 <= h < |ws| ==> IsSpace(ws[h])
    requires q == [] || !IsSpace(q[0])
    ensures SkipSpace(p + ws + q, |p|) == |p| + |ws|
    decreases |ws|
  {
    var s := p + ws + q;
    if ws != [] {
      assert s[|p|] == ws[0];
      assert p + ws + q == (p + [ws[0]]) + ws[1..] + q;
      SkipSpaces(p + [ws[0]], ws[1..], q);
    } else if q != [] {
      assert s[|p|] == q[0];
    }
  }

  // ---------------------------------------------------------------------------
  // Regrouping concatenations, one step at a time

  lemma ConcatAssoc(a: string, b: string, c: string)
    ensures a + (b + c) == a + b + c
  {
  }

  lemma ConcatEmpty(a: string)
    ensures a + [] == a && [] + a == a
  {
  }

  /** The two parts of `a + b`. */
  lemma SplitAt(a: string, b: string)
    ensures (a + b)[..|a|] == a && (a + b)[|a|..] == b
  {
  }
}
