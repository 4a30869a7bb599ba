/**
 * Character classes and string helpers shared by the two forms: the
 * whitespace set that JavaScript's `trim` removes and its `\s` class
 * matches, `trim` itself, and the ASCII classes used by the form's
 * regular expressions.
 */
module Text {

  /** WhiteSpace and LineTerminator code points of ECMAScript (the set `trim` and `\s` use). */
  predicate IsSpace(c: char)
  {
    c == '\t' || c == '\n' || c == '\U{000B}' || c == '\U{000C}' || c == '\r' || c == ' ' ||
    c == '\U{00A0}' || c == '\U{1680}' || ('\U{2000}' <= c <= '\U{200A}') ||
    c == '\U{2028}' || c == '\U{2029}' || c == '\U{202F}' || c == '\U{205F}' ||
    c == '\U{3000}' || c == '\U{FEFF}'
  }

  /** `[0-9]`, which is also what `\d` matches without the unicode flag. */
  predicate IsDigit(c: char) { '0' <= c <= '9' }

  /** `[a-zA-Z]` */
  predicate IsAsciiLetter(c: char) { 'a' <= c <= 'z' || 'A' <= c <= 'Z' }

  /** `\w`, that is `[A-Za-z0-9_]` */
  predicate IsWordChar(c: char) { IsAsciiLetter(c) || IsDigit(c) || c == '_' }

  predicate AllDigits(s: string) { forall i | 0 <= i < |s| :: IsDigit(s[i]) }

  predicate AllLetters(s: string) { forall i | 0 <= i < |s| :: IsAsciiLetter(s[i]) }

  predicate AllSpace(s: string) { forall i | 0 <= i < |s| :: IsSpace(s[i]) }

  /** Drops leading whitespace. */
  function TrimStart(s: string): (r: string)
    ensures |r| <= |s| && r == s[|s| - |r|..]
    ensures AllSpace(s[..|s| - |r|])
    ensures r == [] || !IsSpace(r[0])
  {
    if |s| > 0 && IsSpace(s[0]) then TrimStart(s[1..]) else s
  }

  /** Drops trailing whitespace. */
  function TrimEnd(s: string): (r: string)
    ensures |r| <= |s| && r == s[..|r|]
    ensures AllSpace(s[|r|..])
    ensures r == [] || !IsSpace(r[|r| - 1])
  {
    if |s| > 0 && IsSpace(s[|s| - 1]) then TrimEnd(s[..|s| - 1]) else s
  }

  /** `String.prototype.trim`: `s` without its leading and trailing whitespace. */
  function Trim(s: string): (r: string)
    ensures |r| <= |s|
    ensures r == [] || (!IsSpace(r[0]) && !IsSpace(r[|r| - 1]))
  {
    TrimEnd(TrimStart(s))
  }

  /** The trimmed text is the part of `s` left between a whitespace prefix and a whitespace suffix. */
  lemma TrimIsInner(s: string)
    ensures var r := Trim(s);
      exists i, j | 0 <= i <= j <= |s| :: r == s[i..j] && AllSpace(s[..i]) && AllSpace(s[j..])
  {
    var t := TrimStart(s);
    var r := TrimEnd(t);
    var i, j := |s| - |t|, |s| - |t| + |r|;
    assert r == s[i..j] && AllSpace(s[..i]) by { assert t == s[i..]; }
    assert AllSpace(s[j..]) by { assert s[j..] == t[|r|..]; }
  }

  lemma {:induction false} TrimStartEmptyIffAllSpace(s: string)
    ensures TrimStart(s) == [] <==> AllSpace(s)
  {
    if |s| > 0 && IsSpace(s[0]) {
      TrimStartEmptyIffAllSpace(s[1..]);
      assert AllSpace(s[1..]) ==> AllSpace(s) by {
        if AllSpace(s[1..]) {
          forall i | 0 <= i < |s| ensures IsSpace(s[i]) { if i > 0 { assert s[i] == s[1..][i - 1]; } }
        }
      }
      assert AllSpace(s) ==> AllSpace(s[1..]) by {
        if AllSpace(s) {
          forall i | 0 <= i < |s| - 1 ensures IsSpace(s[1..][i]) { assert s[1..][i] == s[i + 1]; }
        }
      }
    }
  }

  lemma TrimEndKeepsFirst(t: string)
    requires t != [] && !IsSpace(t[0])
    ensures TrimEnd(t) != []
  {
  }

  /** The trimmed string is empty exactly when every character is whitespace. */
  lemma TrimEmptyIffAllSpace(s: string)
    ensures Trim(s) == [] <==> AllSpace(s)
  {
    TrimStartEmptyIffAllSpace(s);
    var t := TrimStart(s);
    if t != [] { TrimEndKeepsFirst(t); }
  }

  /** A string with no whitespace at either end is its own trim. */
  lemma TrimOfTrimmed(s: string)
    requires s == [] || (!IsSpace(s[0]) && !IsSpace(s[|s| - 1]))
    ensures Trim(s) == s
  {
  }

  /** One blank on each side of text without blanks at its ends is trimmed away. */
  lemma TrimPadded(t: string)
    requires t != [] && !IsSpace(t[0]) && !IsSpace(t[|t| - 1])
    ensures Trim(" " + t + " ") == t
  {
    var v, u := " " + t + " ", t + " ";
    assert v[1..] == u && IsSpace(v[0]);
    assert TrimStart(v) == TrimStart(u);
    assert u[0] == t[0];
    assert TrimStart(u) == u;
    assert u[..|u| - 1] == t && IsSpace(u[|u| - 1]);
    assert TrimEnd(u) == TrimEnd(t);
    assert TrimEnd(t) == t;
  }

  /** `s.length` in JavaScript: UTF-16 code units, two for a character beyond U+FFFF. */
  function Utf16Length(s: string): (n: nat)
    ensures |s| <= n <= 2 * |s|
  {
    if s == [] then 0 else (if s[0] as int >= 0x1_0000 then 2 else 1) + Utf16Length(s[1..])
  }

  /** Text without characters beyond U+FFFF has one code unit per character. */
  lemma {:induction false} Utf16LengthBmp(s: string)
    requires forall i | 0 <= i < |s| :: s[i] as int < 0x1_0000
    ensures Utf16Length(s) == |s|
  {
    if s != [] {
      assert s[0] as int < 0x1_0000;
      assert forall i | 0 <= i < |s| - 1 :: s[1..][i] == s[i + 1];
      Utf16LengthBmp(s[1..]);
    }
  }

  /** Code-unit lengths add up over a concatenation. */
  lemma {:induction false} Utf16LengthConcat(a: string, b: string)
    ensures Utf16Length(a + b) == Utf16Length(a) + Utf16Length(b)
  {
    if a == [] {
      assert a + b == b;
    } else {
      assert (a + b)[0] == a[0] && (a + b)[1..] == a[1..] + b;
      Utf16LengthConcat(a[1..], b);
    }
  }

  /** A character beyond U+FFFF is a surrogate pair: two code units. */
  lemma AstralPair()
    ensures Utf16Length("\U{20000}") == 2 && Utf16Length("\U{20000}\U{20000}") == 4
  {
    Utf16LengthConcat("\U{20000}", "\U{20000}");
  }

  /** The position of the first `c` in `s`, or `|s|` when there is none. */
  function IndexOf(s: string, c: char): (i: nat)
    ensures i <= |s| && (i < |s| ==> s[i] == c)
    ensures forall j | 0 <= j < i :: s[j] != c
  {
    if s == [] || s[0] == c then 0 else 1 + IndexOf(s[1..], c)
  }

  /** The first `c` of `s` is at `a` when `s[a]` is `c` and no earlier character is. */
  lemma IndexOfAt(s: string, c: char, a: nat)
    requires a < |s| && s[a] == c
    requires forall j | 0 <= j < a :: s[j] != c
    ensures IndexOf(s, c) == a
  {
  }

  /** Without any `c`, `IndexOf` runs to the end. */
  lemma IndexOfAbsent(s: string, c: char)
    requires forall j | 0 <= j < |s| :: s[j] != c
    ensures IndexOf(s, c) == |s|
  {
  }

  /** ASCII lower-casing of one character. */
  function LowerChar(c: char): (r: char)
    ensures IsAsciiLetter(c) ==> IsAsciiLetter(r) && 'a' <= r <= 'z'
    ensures !('A' <= c <= 'Z') ==> r == c
  {
    if 'A' <= c <= 'Z' then (c as int - 'A' as int + 'a' as int) as char else c
  }

  /** ASCII lower-casing of a string (what `toLowerCase` does on ASCII text). */
  function Lower(s: string): (r: string)
    ensures |r| == |s|
    ensures forall i | 0 <= i < |s| :: r[i] == LowerChar(s[i])
  {
    if s == [] then [] else [LowerChar(s[0])] + Lower(s[1..])
  }
}
