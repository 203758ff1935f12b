/**
 * The JavaScript string operations the extension relies on, over `seq<char>`:
 * `trim`, `split` on one character, `indexOf`, decimal text of a number and
 * the digits a `\d+` regular-expression group captures.
 */
module Strings {
  import opened Wrappers

  /** The characters `String.prototype.trim` removes: WhiteSpace and LineTerminator. */
  predicate IsWhitespace(c: char) {
    || c == '\t' || c == '\n' || c == '\U{000B}' || c == '\U{000C}' || c == '\r' || c == ' '
    || c == '\U{00A0}' || c == '\U{1680}' || ('\U{2000}' <= c <= '\U{200A}')
    || c == '\U{2028}' || c == '\U{2029}' || c == '\U{202F}' || c == '\U{205F}'
    || c == '\U{3000}' || c == '\U{FEFF}'
  }

  predicate AllWhitespace(s: string) {
    forall i :: 0 <= i < |s| ==> IsWhitespace(s[i])
  }

  /** `s` with its leading whitespace removed. */
  function TrimStart(s: string): (r: string)
    ensures |r| <= |s| && r == s[|s| - |r|..]
    ensures AllWhitespace(s[..|s| - |r|])
    ensures r == [] || !IsWhitespace(r[0])
    decreases |s|
  {
    if |s| > 0 && IsWhitespace(s[0]) then
      var r := TrimStart(s[1..]);
      assert s[..|s| - |r|] == [s[0]] + s[1..][..|s| - 1 - |r|];
      r
    else s
  }

  /** `s` with its trailing whitespace removed. */
  function TrimEnd(s: string): (r: string)
    ensures |r| <= |s| && r == s[..|r|]
    ensures AllWhitespace(s[|r|..])
    ensures r == [] || !IsWhitespace(r[|r| - 1])
    decreases |s|
  {
    if |s| > 0 && IsWhitespace(s[|s| - 1]) then
      var init := s[..|s| - 1];
      var r := TrimEnd(init);
      assert s[|r|..] == init[|r|..] + [s[|s| - 1]];
      r
    else s
  }

  /** `String.prototype.trim`: the result neither starts nor ends with whitespace,
      and it is empty exactly when `s` is all whitespace. */
  function Trim(s: string): (r: string)
    ensures r == [] || (!IsWhitespace(r[0]) && !IsWhitespace(r[|r| - 1]))
    ensures r == [] <==> AllWhitespace(s)
  {
    var t := TrimStart(s);
    var r := TrimEnd(t);
    assert r == [] ==> AllWhitespace(s) by {
      if r == [] {
        assert s == s[..|s| - |t|] + t;
        assert AllWhitespace(t[|r|..]);
      }
    }
    r
  }

  /** What trimming removed: `s` is its trimmed text between two runs of whitespace. */
  lemma {:induction false} TrimParts(s: string) returns (pre: string, post: string)
    ensures s == pre + Trim(s) + post
    ensures AllWhitespace(pre) && AllWhitespace(post)
  {
    var t := TrimStart(s);
    var r := TrimEnd(t);
    pre, post := s[..|s| - |t|], t[|r|..];
    CutAt(s, |s| - |t|);
    CutAt(t, |r|);
    Regroup(s, pre, t, r, post);
  }

  lemma Regroup(s: string, pre: string, t: string, r: string, post: string)
    requires s == pre + t && t == r + post
    ensures s == pre + r + post
  {
  }

  /** A string is its two halves around any cut. */
  lemma Wrap(pre: string, a: string, b: string, c: string, post: string)
    ensures pre + (a + b + c) + post == (pre + a) + b + (c + post)
    ensures pre + (a + b + c) + post == pre + a + b + c + post
  {
  }

  lemma Assoc(a: string, b: string, c: string)
    ensures a + (b + c) == a + b + c
    ensures a + b + c + "" == a + b + c && "" + (a + b) + c == a + b + c
  {
  }

  lemma CutAt(s: string, k: nat)
    requires k <= |s|
    ensures s == s[..k] + s[k..]
  {
  }

  /** Trimming removes exactly the whitespace padding around a core that has no
      whitespace at either end. */
  lemma {:induction false} TrimPadded(pre: string, core: string, post: string)
    requires AllWhitespace(pre) && AllWhitespace(post)
    requires core == [] || (!IsWhitespace(core[0]) && !IsWhitespace(core[|core| - 1]))
    ensures Trim(pre + core + post) == core
  {
    var rest := core + post;
    assert pre + core + post == pre + rest;
    if core == [] {
      assert rest == post;
      TrimStartPadded(pre, rest);
    } else {
      assert rest[0] == core[0];
      assert !AllWhitespace(rest);
      TrimStartPadded(pre, rest);
      TrimEndPadded(core, post);
    }
  }

  /** Whitespace around a string does not change its trim. */
  lemma {:induction false} TrimAbsorbs(pre: string, s: string, post: string)
    requires AllWhitespace(pre) && AllWhitespace(post)
    ensures Trim(pre + s + post) == Trim(s)
  {
    var p, q := TrimParts(s);
    WhitespaceConcat(pre, p);
    WhitespaceConcat(q, post);
    Wrap(pre, p, Trim(s), q, post);
    TrimPadded(pre + p, Trim(s), q + post);
  }

  lemma WhitespaceConcat(a: string, b: string)
    requires AllWhitespace(a) && AllWhitespace(b)
    ensures AllWhitespace(a + b)
  {
    forall i | 0 <= i < |a + b| ensures IsWhitespace((a + b)[i]) {
      if i >= |a| { assert (a + b)[i] == b[i - |a|]; }
    }
  }

  lemma {:induction false} TrimStartPadded(pre: string, rest: string)
    requires AllWhitespace(pre)
    requires rest == [] || !IsWhitespace(rest[0]) || AllWhitespace(rest)
    ensures TrimStart(pre + rest) == if AllWhitespace(rest) then [] else rest
    decreases |pre|
  {
    if pre == [] {
      assert pre + rest == rest;
      if AllWhitespace(rest) { AllWhitespaceTrimStart(rest); }
    } else {
      assert (pre + rest)[1..] == pre[1..] + rest;
      TrimStartPadded(pre[1..], rest);
    }
  }

  lemma {:induction false} AllWhitespaceTrimStart(s: string)
    requires AllWhitespace(s)
    ensures TrimStart(s) == []
    decreases |s|
  {
    if s != [] { AllWhitespaceTrimStart(s[1..]); }
  }

  lemma {:induction false} TrimEndPadded(core: string, post: string)
    requires AllWhitespace(post)
    requires core == [] || !IsWhitespace(core[|core| - 1])
    ensures TrimEnd(core + post) == core
    decreases |post|
  {
    if post == [] {
      assert core + post == core;
    } else {
      assert (core + post)[..|core + post| - 1] == core + post[..|post| - 1];
      TrimEndPadded(core, post[..|post| - 1]);
    }
  }

  /** `String.prototype.split` with a one-character separator. */
  function Split(s: string, sep: char): (r: seq<string>)
    ensures |r| >= 1
    ensures forall i :: 0 <= i < |r| ==> sep !in r[i]
    decreases |s|
  {
    if s == [] then [[]]
    else
      var rest := Split(s[1..], sep);
      if s[0] == sep then [[]] + rest else [[s[0]] + rest[0]] + rest[1..]
  }

  /** `Array.prototype.join`. */
  function Join(parts: seq<string>, sep: string): string
    decreases |parts|
  {
    if |parts| == 0 then []
    else if |parts| == 1 then parts[0]
    else parts[0] + sep + Join(parts[1..], sep)
  }

  /** Number of occurrences of `c` in `s`. */
  function Count(s: string, c: char): nat
    decreases |s|
  {
    if s == [] then 0 else (if s[0] == c then 1 else 0) + Count(s[1..], c)
  }

  /** Splitting loses nothing: joining the pieces with the separator gives `s` back. */
  lemma {:induction false} JoinSplit(s: string, sep: char)
    ensures Join(Split(s, sep), [sep]) == s
    decreases |s|
  {
    if s != [] {
      var rest := Split(s[1..], sep);
      JoinSplit(s[1..], sep);
      if s[0] == sep {
        assert ([[]] + rest)[1..] == rest;
      } else if |rest| > 1 {
        var r := [[s[0]] + rest[0]] + rest[1..];
        assert r[1..] == rest[1..];
        assert Join(rest, [sep]) == rest[0] + [sep] + Join(rest[1..], [sep]);
      }
    }
  }

  /** Splitting on `sep` gives one piece more than there are separators. */
  lemma {:induction false} SplitCount(s: string, sep: char)
    ensures |Split(s, sep)| == Count(s, sep) + 1
    decreases |s|
  {
    if s != [] { SplitCount(s[1..], sep); }
  }

  /** Splitting at one separator splits each side on its own: the pieces of
      `a + sep + b` are the pieces of `a` followed by the pieces of `b`. */
  lemma {:induction false} SplitConcat(a: string, b: string, sep: char)
    ensures Split(a + [sep] + b, sep) == Split(a, sep) + Split(b, sep)
    decreases |a|
  {
    var s := a + [sep] + b;
    if a == [] {
      assert s == [sep] + b;
      assert s[1..] == b;
    } else {
      assert s[0] == a[0];
      assert s[1..] == a[1..] + [sep] + b;
      SplitConcat(a[1..], b, sep);
      SplitConcatStep(a, b, sep, Split(a[1..], sep), Split(b, sep));
    }
  }

  /** One step of `SplitConcat`: the first character of `a` goes where it goes
      in `Split(a)`. */
  lemma SplitConcatStep(a: string, b: string, sep: char, ra: seq<string>, rb: seq<string>)
    requires a != [] && ra == Split(a[1..], sep) && rb == Split(b, sep)
    requires Split((a + [sep] + b)[1..], sep) == ra + rb && (a + [sep] + b)[0] == a[0]
    ensures Split(a + [sep] + b, sep) == Split(a, sep) + rb
  {
    var s := a + [sep] + b;
    if a[0] == sep {
      calc {
        Split(s, sep);
        [[]] + (ra + rb);
        ([[]] + ra) + rb;
      }
    } else {
      var head := [a[0]] + ra[0];
      calc {
        Split(s, sep);
        [[s[0]] + (ra + rb)[0]] + (ra + rb)[1..];
        { assert (ra + rb)[0] == ra[0]; assert (ra + rb)[1..] == ra[1..] + rb; }
        [head] + (ra[1..] + rb);
        ([head] + ra[1..]) + rb;
      }
    }
  }

  /** A string without the separator is one piece. */
  lemma {:induction false} SplitNoSep(s: string, sep: char)
    requires sep !in s
    ensures Split(s, sep) == [s]
    decreases |s|
  {
    if s != [] {
      assert sep !in s[1..] by {
        forall i | 0 <= i < |s[1..]| ensures s[1..][i] != sep {
          assert s[1..][i] == s[i + 1];
        }
      }
      SplitNoSep(s[1..], sep);
      assert [s[0]] + s[1..] == s;
    }
  }

  /** `pat` occurs in `s` at position `i`. */
  predicate IsAt(s: string, pat: string, i: nat) {
    i + |pat| <= |s| && s[i..i + |pat|] == pat
  }

  /** `s.indexOf(pat, k)`: the first occurrence of `pat` at or after `k`. */
  function IndexFrom(s: string, pat: string, k: nat): (r: Option<nat>)
    ensures r.Some? ==> k <= r.value && IsAt(s, pat, r.value)
    ensures forall j: nat :: k <= j && (r.None? || j < r.value) ==> !IsAt(s, pat, j)
    decreases |s| - k
  {
    if k + |pat| > |s| then None
    else if s[k..k + |pat|] == pat then Some(k)
    else IndexFrom(s, pat, k + 1)
  }

  /** `indexOf` finds `n` exactly when the pattern occurs there and nowhere
      between `k` and `n`. */
  lemma IndexFromExact(s: string, pat: string, k: nat, n: nat)
    requires k <= n && IsAt(s, pat, n)
    requires forall j: nat :: k <= j < n ==> !IsAt(s, pat, j)
    ensures IndexFrom(s, pat, k) == Some(n)
  {
  }

  /** `indexOf` finds nothing when the pattern occurs nowhere from `k` on. */
  lemma IndexFromAbsent(s: string, pat: string, k: nat)
    requires forall j: nat :: k <= j ==> !IsAt(s, pat, j)
    ensures IndexFrom(s, pat, k) == None
  {
  }

  /** No occurrence of a pattern that starts with a character absent from `s`. */
  lemma AbsentLead(s: string, pat: string)
    requires |pat| > 0 && pat[0] !in s
    ensures forall j: nat :: !IsAt(s, pat, j)
  {
    forall j: nat ensures !IsAt(s, pat, j) {
      if j + |pat| <= |s| {
        assert s[j] in s;
        assert s[j..j + |pat|][0] == s[j];
      }
    }
  }

  predicate IsDigit(c: char) {
    '0' <= c <= '9'
  }

  predicate AllDigits(s: string) {
    forall i :: 0 <= i < |s| ==> IsDigit(s[i])
  }

  function DigitValue(c: char): nat
    requires IsDigit(c)
  {
    c as int - '0' as int
  }

  function DigitChar(d: nat): (c: char)
    requires d < 10
    ensures IsDigit(c) && DigitValue(c) == d
  {
    ('0' as int + d) as char
  }

  /** The decimal text of `n`, as JavaScript prints a non-negative integer. */
  function NatToString(n: nat): (r: string)
    ensures |r| >= 1 && AllDigits(r)
    decreases n
  {
    if n < 10 then [DigitChar(n)] else NatToString(n / 10) + [DigitChar(n % 10)]
  }

  /** The value of a string of decimal digits, as `parseInt(s, 10)` reads it. */
  function DigitsValue(s: string): nat
    requires AllDigits(s)
    decreases |s|
  {
    if s == [] then 0 else 10 * DigitsValue(s[..|s| - 1]) + DigitValue(s[|s| - 1])
  }

  /** Reading back the decimal text of a number gives the number. */
  lemma {:induction false} NatToStringValue(n: nat)
    ensures DigitsValue(NatToString(n)) == n
    decreases n
  {
    if n >= 10 {
      var s := NatToString(n);
      assert s[..|s| - 1] == NatToString(n / 10);
      NatToStringValue(n / 10);
    }
  }

  /** The longest prefix of `s` made of digits: what a greedy `\d+` captures. */
  function LeadingDigits(s: string): (r: string)
    ensures |r| <= |s| && r == s[..|r|] && AllDigits(r)
    ensures |r| == |s| || !IsDigit(s[|r|])
    decreases |s|
  {
    if s != [] && IsDigit(s[0]) then [s[0]] + LeadingDigits(s[1..]) else []
  }

  lemma {:induction false} LeadingDigitsOfDigits(s: string)
    requires AllDigits(s)
    ensures LeadingDigits(s) == s
    decreases |s|
  {
    if s != [] { LeadingDigitsOfDigits(s[1..]); }
  }

  /** The first `n` characters of `s` (`String.prototype.substring(0, n)`). */
  function Take(s: string, n: nat): (r: string)
    ensures |r| == if |s| < n then |s| else n
    ensures r == s[..|r|]
  {
    if |s| <= n then s else s[..n]
  }

  /** Template-literal interpolation of an optional string: `undefined` when absent. */
  function Interpolate(o: Option<string>): string {
    match o
    case Some(s) => s
    case None => "undefined"
  }

  /** JavaScript truthiness of an optional string. */
  predicate Present(o: Option<string>) {
    o.Some? && o.value != ""
  }
}
