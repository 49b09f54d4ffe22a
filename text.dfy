/** String operations of Python's `str` that the analytics code relies on:
    `strip()`, `upper()` (as far as the PASS test can observe it),
    `replace(pat, '')` and the code-point ordering used by `sorted`. */
module Text {

  /** Python's `str.isspace()` for one character. */
  predicate IsSpace(c: char) {
    || c == ' ' || c == '\t' || c == '\n' || c == '\r' || c == '\U{0B}' || c == '\U{0C}'
    || ('\U{1C}' <= c <= '\U{1F}') || c == '\U{85}' || c == '\U{A0}' || c == '\U{1680}'
    || ('\U{2000}' <= c <= '\U{200A}') || c == '\U{2028}' || c == '\U{2029}'
    || c == '\U{202F}' || c == '\U{205F}' || c == '\U{3000}'
  }

  /** `s.lstrip()`: drops the leading whitespace and nothing else. */
  function TrimLeft(s: string): (r: string)
    ensures |r| <= |s| && r == s[|s| - |r|..]
    ensures forall k :: 0 <= k < |s| - |r| ==> IsSpace(s[k])
    ensures r == [] || !IsSpace(r[0])
    decreases |s|
  {
    if |s| > 0 && IsSpace(s[0]) then TrimLeft(s[1..]) else s
  }

  /** `s.rstrip()`: drops the trailing whitespace and nothing else. */
  function TrimRight(s: string): (r: string)
    ensures |r| <= |s| && r == s[..|r|]
    ensures forall k :: |r| <= k < |s| ==> IsSpace(s[k])
    ensures r == [] || !IsSpace(r[|r| - 1])
    decreases |s|
  {
    if |s| > 0 && IsSpace(s[|s| - 1]) then TrimRight(s[..|s| - 1]) else s
  }

  /** `s.strip()`: a contiguous piece of `s` that neither starts nor ends with whitespace. */
  function Trim(s: string): (r: string)
    ensures |r| <= |s|
    ensures r == [] || (!IsSpace(r[0]) && !IsSpace(r[|r| - 1]))
  {
    var l := TrimLeft(s);
    var r := TrimRight(l);
    assert r != [] ==> r[0] == l[0];
    r
  }

  ghost predicate AllSpace(s: string) {
    forall k :: 0 <= k < |s| ==> IsSpace(s[k])
  }

  lemma {:induction false} TrimLeftPadded(pre: string, w: string)
    requires AllSpace(pre)
    requires w == [] || !IsSpace(w[0])
    ensures TrimLeft(pre + w) == w
    decreases |pre|
  {
    if pre == [] {
      assert pre + w == w;
    } else {
      assert (pre + w)[1..] == pre[1..] + w;
      TrimLeftPadded(pre[1..], w);
    }
  }

  lemma {:induction false} TrimRightPadded(w: string, post: string)
    requires AllSpace(post)
    requires w == [] || !IsSpace(w[|w| - 1])
    ensures TrimRight(w + post) == w
    decreases |post|
  {
    if post == [] {
      assert w + post == w;
    } else {
      assert (w + post)[..|w + post| - 1] == w + post[..|post| - 1];
      TrimRightPadded(w, post[..|post| - 1]);
    }
  }

  /** Whatever whitespace surrounds a word, `strip()` gives back exactly the word. */
  lemma TrimPadded(pre: string, w: string, post: string)
    requires AllSpace(pre) && AllSpace(post)
    requires w == [] || (!IsSpace(w[0]) && !IsSpace(w[|w| - 1]))
    ensures Trim(pre + w + post) == w
  {
    if w == [] {
      assert pre + w + post == pre + post;
      TrimLeftPadded(pre + post, []);
      assert pre + post + [] == pre + post;
    } else {
      assert pre + w + post == pre + (w + post);
      TrimLeftPadded(pre, w + post);
      TrimRightPadded(w, post);
    }
  }

  /** `c.upper()` for the characters whose upper-case form can occur in "PASS":
      ASCII letters, LATIN SMALL LETTER LONG S (U+017F, upper-cases to "S") and
      LATIN SMALL LETTER SHARP S (U+00DF, upper-cases to "SS"). */
  function UpperChar(c: char): string {
    if 'a' <= c <= 'z' then [(c as int - 32) as char]
    else if c == '\U{17F}' then "S"
    else if c == '\U{DF}' then "SS"
    else [c]
  }

  /** `s.upper()`, character by character. */
  function Upper(s: string): string {
    if s == [] then [] else UpperChar(s[0]) + Upper(s[1..])
  }

  predicate IsAscii(s: string) {
    forall k :: 0 <= k < |s| ==> s[k] < '\U{80}'
  }

  /** On ASCII text `upper()` keeps the length and maps each letter on its own. */
  lemma {:induction false} UpperAscii(s: string)
    requires IsAscii(s)
    ensures |Upper(s)| == |s|
    ensures forall k :: 0 <= k < |s| ==> Upper(s)[k] == UpperChar(s[k])[0]
    decreases |s|
  {
    if s != [] {
      UpperAscii(s[1..]);
      assert Upper(s) == UpperChar(s[0]) + Upper(s[1..]);
      forall k | 0 <= k < |s|
        ensures Upper(s)[k] == UpperChar(s[k])[0]
      {
        if k > 0 {
          assert s[k] == s[1..][k - 1];
        }
      }
    }
  }

  /** An ASCII character upper-cases to the capital `cap` exactly when it is `cap` or its small form. */
  lemma UpperAsciiLetter(c: char, cap: char)
    requires c < '\U{80}' && 'A' <= cap <= 'Z'
    ensures UpperChar(c)[0] == cap <==> c == cap || c as int == cap as int + 32
  {
  }

  /** `s.replace(pat, '')`: every occurrence found scanning left to right is dropped,
      and the text after a removal is not rescanned together with what precedes it. */
  function RemoveAll(s: string, pat: string): (r: string)
    requires |pat| > 0
    ensures |r| <= |s|
    decreases |s|
  {
    if |s| == 0 then []
    else if pat <= s then RemoveAll(s[|pat|..], pat)
    else [s[0]] + RemoveAll(s[1..], pat)
  }

  lemma RemoveAllLeading(pat: string, s: string)
    requires |pat| > 0
    ensures RemoveAll(pat + s, pat) == RemoveAll(s, pat)
  {
    assert pat <= pat + s;
    assert (pat + s)[|pat|..] == s;
  }

  /** Text that cannot start an occurrence of `pat` passes through `replace` untouched. */
  lemma {:induction false} RemoveAllKeeps(u: string, s: string, pat: string)
    requires |pat| > 0
    requires forall k :: 0 <= k < |u| ==> u[k] != pat[0]
    ensures RemoveAll(u + s, pat) == u + RemoveAll(s, pat)
    decreases |u|
  {
    if u != [] {
      assert (u + s)[0] == u[0];
      assert !(pat <= u + s);
      assert (u + s)[1..] == u[1..] + s;
      RemoveAllKeeps(u[1..], s, pat);
    } else {
      assert u + s == s;
    }
  }

  /** Lexicographic order on code points: Python's `<=` on `str`. */
  predicate StrLe(a: string, b: string) {
    |a| == 0 || (|b| > 0 && (a[0] < b[0] || (a[0] == b[0] && StrLe(a[1..], b[1..]))))
  }

  lemma {:induction false} StrLeTotal(a: string, b: string)
    ensures StrLe(a, b) || StrLe(b, a)
    decreases |a|
  {
    if |a| > 0 && |b| > 0 && a[0] == b[0] {
      StrLeTotal(a[1..], b[1..]);
    }
  }

  lemma {:induction false} StrLeTransitive(a: string, b: string, c: string)
    requires StrLe(a, b) && StrLe(b, c)
    ensures StrLe(a, c)
    decreases |a|
  {
    if |a| > 0 && a[0] == b[0] && b[0] == c[0] {
      StrLeTransitive(a[1..], b[1..], c[1..]);
    }
  }

  lemma {:induction false} StrLeAntisymmetric(a: string, b: string)
    requires StrLe(a, b) && StrLe(b, a)
    ensures a == b
    decreases |a|
  {
    if |a| > 0 {
      StrLeAntisymmetric(a[1..], b[1..]);
      assert a == [a[0]] + a[1..];
      assert b == [b[0]] + b[1..];
    }
  }
}
