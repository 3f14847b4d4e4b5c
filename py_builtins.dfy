/** The Python builtins the pipeline's text handling relies on, stated on
    `seq<char>`: `str.isspace`, `str.strip()`, `str.replace`, the `in`
    operator on strings and the prefix slice `s[:n]`. */
module PyBuiltins {

  /** Python's `str.isspace()` for one character (the characters CPython
      treats as whitespace, which `str.strip()` with no argument removes). */
  predicate IsSpace(c: char) {
    c in {' ', '\t', '\n', '\r', '\U{B}', '\U{C}', '\U{1C}', '\U{1D}', '\U{1E}', '\U{1F}',
          '\U{85}', '\U{A0}', '\U{1680}', '\U{2000}', '\U{2001}', '\U{2002}', '\U{2003}',
          '\U{2004}', '\U{2005}', '\U{2006}', '\U{2007}', '\U{2008}', '\U{2009}', '\U{200A}',
          '\U{2028}', '\U{2029}', '\U{202F}', '\U{205F}', '\U{3000}'}
  }

  /** No whitespace at either end: what `str.strip()` returns. */
  predicate IsStripped(s: string) {
    s == [] || (!IsSpace(s[0]) && !IsSpace(s[|s| - 1]))
  }

  /** `s.lstrip()`: drops the longest all-whitespace prefix. */
  function StripLeft(s: string): (r: string)
    ensures |r| <= |s| && r == s[|s| - |r|..]
    ensures forall k :: 0 <= k < |s| - |r| ==> IsSpace(s[k])
    ensures r == [] || !IsSpace(r[0])
    decreases |s|
  {
    if |s| > 0 && IsSpace(s[0]) then StripLeft(s[1..]) else s
  }

  /** `s.rstrip()`: drops the longest all-whitespace suffix. */
  function StripRight(s: string): (r: string)
    ensures |r| <= |s| && r == s[..|r|]
    ensures forall k :: |r| <= k < |s| ==> IsSpace(s[k])
    ensures r == [] || !IsSpace(r[|r| - 1])
    decreases |s|
  {
    if |s| > 0 && IsSpace(s[|s| - 1]) then StripRight(s[..|s| - 1]) else s
  }

  /** `s.strip()`. The result is stripped, takes its characters from `s`,
      and a string that is already stripped is returned unchanged. */
  function Strip(s: string): (r: string)
    ensures IsStripped(r)
    ensures |r| <= |s|
    ensures forall k :: 0 <= k < |r| ==> r[k] in s
    ensures IsStripped(s) ==> r == s
  {
    var l := StripLeft(s);
    assert forall k :: 0 <= k < |l| ==> l[k] == s[|s| - |l| + k];
    StripRight(l)
  }

  lemma StripLeftSkipsSpace(c: char, t: string)
    requires IsSpace(c)
    ensures StripLeft([c] + t) == StripLeft(t)
  {
    assert ([c] + t)[1..] == t;
  }

  /** Python's `s.replace(pat, rep)` for a non-empty `pat`: a left-to-right
      scan that replaces non-overlapping occurrences. */
  function Replace(s: string, pat: string, rep: string): string
    requires |pat| > 0
    decreases |s|
  {
    if |s| < |pat| then s
    else if s[..|pat|] == pat then rep + Replace(s[|pat|..], pat, rep)
    else [s[0]] + Replace(s[1..], pat, rep)
  }

  /** A character that cannot start `pat` is copied and the scan moves on. */
  lemma ReplaceConsNoMatch(c: char, t: string, pat: string, rep: string)
    requires |pat| > 0 && c != pat[0]
    ensures Replace([c] + t, pat, rep) == [c] + Replace(t, pat, rep)
  {
    var s := [c] + t;
    assert s[1..] == t;
    if |s| >= |pat| {
      assert s[..|pat|][0] == c;
    }
  }

  /** With a one-character pattern the scan is a per-character map. */
  lemma ReplaceConsSingle(c: char, t: string, pat: string, rep: string)
    requires |pat| == 1
    ensures Replace([c] + t, pat, rep)
         == (if c == pat[0] then rep else [c]) + Replace(t, pat, rep)
  {
    var s := [c] + t;
    assert s[1..] == t;
    assert s[..1] == [c];
  }

  /** The first character `replace` emits is the replacement's or the input's own. */
  lemma ReplaceHead(s: string, pat: string, rep: string)
    requires |pat| > 0 && |rep| > 0 && |s| > 0
    ensures |Replace(s, pat, rep)| > 0
    ensures Replace(s, pat, rep)[0] == rep[0] || Replace(s, pat, rep)[0] == s[0]
  {
  }

  /** A string in which `pat` cannot start anywhere is left unchanged. */
  lemma {:induction false} ReplaceAbsent(s: string, pat: string, rep: string)
    requires |pat| > 0 && pat[0] !in s
    ensures Replace(s, pat, rep) == s
    decreases |s|
  {
    if |s| >= |pat| {
      assert s[0] in s;
      assert s[..|pat|][0] == s[0];
      assert s == [s[0]] + s[1..];
      ReplaceAbsent(s[1..], pat, rep);
    }
  }

  /** Python's `w in s` for strings. */
  predicate IsInfix(w: string, s: string)
    decreases |s|
  {
    if |s| < |w| then false else s[..|w|] == w || IsInfix(w, s[1..])
  }

  lemma {:induction false} InfixOfConcat(a: string, w: string, b: string)
    ensures IsInfix(w, a + w + b)
    decreases |a|
  {
    if a == [] {
      assert (a + w + b)[..|w|] == w;
    } else {
      assert (a + w + b)[1..] == a[1..] + w + b;
      InfixOfConcat(a[1..], w, b);
    }
  }

  /** An infix of `y` is an infix of `x + y`. */
  lemma {:induction false} InfixExtendLeft(w: string, x: string, y: string)
    requires IsInfix(w, y)
    ensures IsInfix(w, x + y)
    decreases |x|
  {
    if x == [] {
      assert x + y == y;
    } else {
      InfixExtendLeft(w, x[1..], y);
      assert (x + y)[1..] == x[1..] + y;
    }
  }

  lemma {:induction false} InfixDropLast(w: string, s: string)
    requires |w| > 0 && |s| > 0 && IsInfix(w, s) && s[|s| - 1] != w[|w| - 1]
    ensures IsInfix(w, s[..|s| - 1])
    decreases |s|
  {
    var t := s[..|s| - 1];
    if s[..|w|] == w {
      assert s[..|w|][|w| - 1] == w[|w| - 1];
      assert |s| > |w|;
      assert t[..|w|] == w;
    } else {
      assert IsInfix(w, s[1..]);
      InfixDropLast(w, s[1..]);
      assert s[1..][..|s[1..]| - 1] == t[1..];
    }
  }

  lemma {:induction false} StripLeftKeepsInfix(w: string, s: string)
    requires |w| > 0 && !IsSpace(w[0]) && IsInfix(w, s)
    ensures IsInfix(w, StripLeft(s))
    decreases |s|
  {
    if |s| > 0 && IsSpace(s[0]) {
      assert s[..|w|][0] == s[0];
      StripLeftKeepsInfix(w, s[1..]);
    }
  }

  lemma {:induction false} StripRightKeepsInfix(w: string, s: string)
    requires |w| > 0 && !IsSpace(w[|w| - 1]) && IsInfix(w, s)
    ensures IsInfix(w, StripRight(s))
    decreases |s|
  {
    if |s| > 0 && IsSpace(s[|s| - 1]) {
      InfixDropLast(w, s);
      StripRightKeepsInfix(w, s[..|s| - 1]);
    }
  }

  /** `strip()` keeps every infix that starts and ends with a
      non-whitespace character. */
  lemma StripKeepsInfix(w: string, s: string)
    requires |w| > 0 && !IsSpace(w[0]) && !IsSpace(w[|w| - 1]) && IsInfix(w, s)
    ensures IsInfix(w, Strip(s))
  {
    StripLeftKeepsInfix(w, s);
    StripRightKeepsInfix(w, StripLeft(s));
  }

  /** Python's prefix slice `s[:n]`, where a negative `n` counts from the end. */
  function SlicePrefix<T>(s: seq<T>, n: int): (r: seq<T>)
    ensures |r| <= |s| && r == s[..|r|]
    ensures n >= 0 ==> |r| == if n <= |s| then n else |s|
    ensures n < 0 ==> |r| == if |s| + n >= 0 then |s| + n else 0
  {
    if n >= 0 then (if n <= |s| then s[..n] else s)
    else (if |s| + n >= 0 then s[..|s| + n] else [])
  }
}
