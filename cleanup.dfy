/** The output rewrite the research and analysis stages share:
    `text.replace("\\n", "\n").replace("\\", "").strip()`. */
module Cleanup {
  import opened PyBuiltins

  const Backslash: char := '\\'

  /** The rewrite as the stages write it: two `str.replace` passes, then `strip()`. */
  function NewlineCleanup(s: string): (r: string)
    ensures IsStripped(r)
  {
    Strip(Replace(Replace(s, "\\n", "\n"), "\\", ""))
  }

  /** Reference definition in one left-to-right pass: a backslash followed
      by `n` becomes a newline, any other backslash is dropped, every other
      character is kept. */
  function NewlineUnescaped(s: string): string
    decreases |s|
  {
    if s == [] then []
    else if |s| >= 2 && s[0] == Backslash && s[1] == 'n' then "\n" + NewlineUnescaped(s[2..])
    else if s[0] == Backslash then NewlineUnescaped(s[1..])
    else [s[0]] + NewlineUnescaped(s[1..])
  }

  /** The two `replace` passes compute the one-pass reference. */
  lemma {:induction false} ReplacesMatchReference(s: string)
    ensures Replace(Replace(s, "\\n", "\n"), "\\", "") == NewlineUnescaped(s)
    decreases |s|
  {
    var first := Replace(s, "\\n", "\n");
    if s == [] {
    } else if |s| >= 2 && s[0] == Backslash && s[1] == 'n' {
      assert s[..2] == "\\n";
      assert first == "\n" + Replace(s[2..], "\\n", "\n");
      ReplaceConsSingle('\n', Replace(s[2..], "\\n", "\n"), "\\", "");
      ReplacesMatchReference(s[2..]);
    } else if s[0] == Backslash {
      if |s| < 2 {
        assert first == s == [Backslash] + [];
        ReplaceConsSingle(Backslash, [], "\\", "");
      } else {
        assert s[..2] != "\\n";
        assert first == [Backslash] + Replace(s[1..], "\\n", "\n");
        ReplaceConsSingle(Backslash, Replace(s[1..], "\\n", "\n"), "\\", "");
        ReplacesMatchReference(s[1..]);
      }
    } else {
      assert s == [s[0]] + s[1..];
      ReplaceConsNoMatch(s[0], s[1..], "\\n", "\n");
      ReplaceConsSingle(s[0], Replace(s[1..], "\\n", "\n"), "\\", "");
      ReplacesMatchReference(s[1..]);
    }
  }

  lemma {:induction false} UnescapedHasNoBackslash(s: string)
    ensures Backslash !in NewlineUnescaped(s)
    decreases |s|
  {
    if s == [] {
    } else if |s| >= 2 && s[0] == Backslash && s[1] == 'n' {
      UnescapedHasNoBackslash(s[2..]);
    } else {
      UnescapedHasNoBackslash(s[1..]);
    }
  }

  lemma {:induction false} UnescapedFixesPlainText(s: string)
    requires Backslash !in s
    ensures NewlineUnescaped(s) == s
    decreases |s|
  {
    if s != [] {
      assert s[0] in s;
      assert s == [s[0]] + s[1..];
      UnescapedFixesPlainText(s[1..]);
    }
  }

  /** The cleaned text is stripped, holds no backslash, and is the stripped
      one-pass unescaping of the input. */
  lemma NewlineCleanupSpec(s: string)
    ensures NewlineCleanup(s) == Strip(NewlineUnescaped(s))
    ensures Backslash !in NewlineCleanup(s)
    ensures IsStripped(NewlineCleanup(s))
  {
    ReplacesMatchReference(s);
    UnescapedHasNoBackslash(s);
    var t := NewlineCleanup(s);
    forall k | 0 <= k < |t| ensures t[k] != Backslash {
    }
  }

  /** Cleaning an already cleaned text changes nothing. */
  lemma NewlineCleanupIdempotent(s: string)
    ensures NewlineCleanup(NewlineCleanup(s)) == NewlineCleanup(s)
  {
    var t := NewlineCleanup(s);
    NewlineCleanupSpec(s);
    NewlineCleanupSpec(t);
    UnescapedFixesPlainText(t);
  }

  /** Text without a backslash is only stripped. */
  lemma PlainTextOnlyStripped(s: string)
    requires Backslash !in s
    ensures NewlineCleanup(s) == Strip(s)
  {
    ReplaceAbsent(s, "\\n", "\n");
    ReplaceAbsent(s, "\\", "");
  }
}
