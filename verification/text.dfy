/** The string primitives the prompt generator relies on: JavaScript's
    `String.prototype.trim`, `startsWith`, `endsWith`, and the global
    replacement of one character by the empty string. */
module Text {

  /** The code points `trim` removes: ECMAScript's WhiteSpace (tab, vertical
      tab, form feed, the byte-order mark and every space separator) and its
      LineTerminator set (LF, CR, U+2028, U+2029). */
  predicate IsWhitespace(c: char) {
    || c == '\t' || c == '\n' || c == '\U{B}' || c == '\U{C}' || c == '\r'
    || c == ' ' || c == '\U{A0}' || c == '\U{1680}'
    || ('\U{2000}' <= c <= '\U{200A}')
    || c == '\U{2028}' || c == '\U{2029}' || c == '\U{202F}' || c == '\U{205F}'
    || c == '\U{3000}' || c == '\U{FEFF}'
  }

  predicate AllWhitespace(s: string) {
    forall k :: 0 <= k < |s| ==> IsWhitespace(s[k])
  }

  /** A string `trim` leaves alone: empty, or not starting or ending in whitespace. */
  predicate Trimmed(s: string) {
    |s| == 0 || (!IsWhitespace(s[0]) && !IsWhitespace(s[|s| - 1]))
  }

  /** The length of the longest all-whitespace prefix of `s`. */
  function LeadingWhitespace(s: string): (n: nat)
    ensures n <= |s|
    ensures forall k :: 0 <= k < n ==> IsWhitespace(s[k])
    ensures n < |s| ==> !IsWhitespace(s[n])
  {
    if |s| > 0 && IsWhitespace(s[0]) then 1 + LeadingWhitespace(s[1..]) else 0
  }

  /** The length of the longest all-whitespace suffix of `s`. */
  function TrailingWhitespace(s: string): (n: nat)
    ensures n <= |s|
    ensures forall k :: |s| - n <= k < |s| ==> IsWhitespace(s[k])
    ensures n < |s| ==> !IsWhitespace(s[|s| - 1 - n])
  {
    if |s| > 0 && IsWhitespace(s[|s| - 1]) then 1 + TrailingWhitespace(s[..|s| - 1]) else 0
  }

  /** `s.trim()`: `s` without its leading and trailing whitespace. */
  function Trim(s: string): (r: string)
    ensures Trimmed(r)
    ensures |r| <= |s|
    ensures forall k :: 0 <= k < |s| && !IsWhitespace(s[k]) ==> s[k] in r
  {
    var a := LeadingWhitespace(s);
    if a == |s| then "" else s[a..|s| - TrailingWhitespace(s)]
  }

  /** What `trim` takes off is whitespace, on both sides of its result. */
  lemma TrimSplit(s: string) returns (a: string, b: string)
    ensures s == a + Trim(s) + b
    ensures AllWhitespace(a) && AllWhitespace(b)
  {
    var n := LeadingWhitespace(s);
    if n == |s| {
      a, b := s, "";
      assert s == a + "" + b;
    } else {
      var e := |s| - TrailingWhitespace(s);
      assert Trim(s) == s[n..e];
      a, b := WhitespaceAround(s, n, e);
    }
  }

  /** Cutting `s` at `n` and `e`, with only whitespace before `n` and from `e` on. */
  lemma WhitespaceAround(s: string, n: nat, e: nat) returns (a: string, b: string)
    requires n <= e <= |s|
    requires forall k :: 0 <= k < n ==> IsWhitespace(s[k])
    requires forall k :: e <= k < |s| ==> IsWhitespace(s[k])
    ensures s == a + s[n..e] + b
    ensures AllWhitespace(a) && AllWhitespace(b)
  {
    a, b := s[..n], s[e..];
    assert s == a + s[n..e] + b;
  }

  /** `trim` is determined by the decomposition: whatever whitespace surrounds
      a trimmed string `m`, trimming yields `m`. */
  lemma {:induction false} TrimUnique(a: string, m: string, b: string)
    requires AllWhitespace(a) && AllWhitespace(b) && Trimmed(m)
    ensures Trim(a + m + b) == m
  {
    var s := a + m + b;
    assert forall k :: 0 <= k < |a| ==> s[k] == a[k];
    assert forall k :: |a| + |m| <= k < |s| ==> s[k] == b[k - |a| - |m|];
    if |m| == 0 {
      assert AllWhitespace(s);
    } else {
      assert s[|a|] == m[0];
      assert LeadingWhitespace(s) == |a|;
      assert s[|s| - 1 - |b|] == m[|m| - 1];
      assert TrailingWhitespace(s) == |b|;
      assert s[|a|..|s| - |b|] == m;
    }
  }

  /** A string without surrounding whitespace is its own trim. */
  lemma TrimOfTrimmed(m: string)
    requires Trimmed(m)
    ensures Trim(m) == m
  {
    assert "" + m + "" == m;
    TrimUnique("", m, "");
  }

  lemma AllWhitespaceConcat(x: string, y: string)
    requires AllWhitespace(x) && AllWhitespace(y)
    ensures AllWhitespace(x + y)
  {
    assert forall k :: |x| <= k < |x + y| ==> (x + y)[k] == y[k - |x|];
  }

  lemma Regroup(p: string, q: string, r: string, t: string, u: string)
    ensures p + (q + r + t) + u == (p + q) + r + (t + u)
  {
  }

  /** Whitespace added before or after a string does not change its trim. */
  lemma TrimIgnoresPadding(w1: string, s: string, w2: string)
    requires AllWhitespace(w1) && AllWhitespace(w2)
    ensures Trim(w1 + s + w2) == Trim(s)
  {
    var a, b := TrimSplit(s);
    var m := Trim(s);
    Regroup(w1, a, m, b, w2);
    AllWhitespaceConcat(w1, a);
    AllWhitespaceConcat(b, w2);
    TrimUnique(w1 + a, m, b + w2);
  }

  /** Trimming twice is trimming once. */
  lemma TrimIdempotent(s: string)
    ensures Trim(Trim(s)) == Trim(s)
  {
    TrimOfTrimmed(Trim(s));
  }

  /** `s.startsWith(p)`, compared character by character. */
  function StartsWith(s: string, p: string): (r: bool)
    ensures r <==> p <= s
  {
    if |p| == 0 then true
    else if |s| == 0 then false
    else s[0] == p[0] && StartsWith(s[1..], p[1..])
  }

  /** `s.endsWith(suffix)`: the last `|suffix|` characters are `suffix`. */
  predicate EndsWith(s: string, suffix: string) {
    |suffix| <= |s| && s[|s| - |suffix|..] == suffix
  }

  /** `endsWith` holds exactly when the string is some stem followed by the suffix. */
  lemma EndsWithMeansSuffix(s: string, suffix: string)
    ensures EndsWith(s, suffix) <==> exists stem :: s == stem + suffix
  {
    if EndsWith(s, suffix) {
      assert s == s[..|s| - |suffix|] + suffix;
    }
    assert forall stem :: s == stem + suffix ==> s[|stem|..] == suffix;
  }

  lemma EndsWithAppended(t: string, suffix: string)
    ensures EndsWith(t + suffix, suffix)
  {
    assert (t + suffix)[|t|..] == suffix;
  }

  /** `s.replace(/c/g, '')`: `s` with every occurrence of `c` deleted. */
  function RemoveChar(s: string, c: char): (r: string)
    ensures c !in r
    ensures |r| <= |s|
    ensures forall d :: d != c ==> multiset(r)[d] == multiset(s)[d]
  {
    if |s| == 0 then ""
    else
      assert s == [s[0]] + s[1..];
      (if s[0] == c then "" else [s[0]]) + RemoveChar(s[1..], c)
  }

  /** Removal works piecewise, so the characters that remain keep their order. */
  lemma {:induction false} RemoveCharConcat(s: string, t: string, c: char)
    ensures RemoveChar(s + t, c) == RemoveChar(s, c) + RemoveChar(t, c)
  {
    if |s| > 0 {
      assert (s + t)[1..] == s[1..] + t;
      RemoveCharConcat(s[1..], t, c);
    } else {
      assert s + t == t;
    }
  }

  /** Removal changes a string exactly when the character occurs in it. */
  lemma {:induction false} RemoveCharIdentity(s: string, c: char)
    ensures RemoveChar(s, c) == s <==> c !in s
  {
    if |s| > 0 {
      RemoveCharIdentity(s[1..], c);
      assert s == [s[0]] + s[1..];
    }
  }

  /** Removing the same character again changes nothing. */
  lemma RemoveCharIdempotent(s: string, c: char)
    ensures RemoveChar(RemoveChar(s, c), c) == RemoveChar(s, c)
  {
    RemoveCharIdentity(RemoveChar(s, c), c);
  }
}
