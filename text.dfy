/** String operations the backend (Java) and the frontend (JavaScript) apply to
    user input: trimming, case mapping, substring and prefix tests, the last
    occurrence of a character, and code-point lexicographic order. */
module Text {

  /** Characters Java's `String.trim` removes: every code point up to U+0020. */
  predicate JavaTrimmable(c: char)
  {
    c <= ' '
  }

  /** Java's `Character.isWhitespace`, used by `String.isBlank`: the ASCII
      controls TAB..CR and FS..US, and the Unicode space, line and paragraph
      separators other than the three non-breaking spaces. */
  predicate JavaWhitespace(c: char)
  {
    ('\t' <= c <= '\r') || ('\U{1C}' <= c <= ' ') || c == '\U{1680}' ||
    ('\U{2000}' <= c <= '\U{2006}') || ('\U{2008}' <= c <= '\U{200A}') ||
    c == '\U{2028}' || c == '\U{2029}' || c == '\U{205F}' || c == '\U{3000}'
  }

  /** JavaScript's WhiteSpace and LineTerminator code points, the set that
      `String.prototype.trim` removes. */
  predicate JsWhitespace(c: char)
  {
    ('\t' <= c <= '\r') || c == ' ' || c == '\U{A0}' || c == '\U{1680}' ||
    ('\U{2000}' <= c <= '\U{200A}') || c == '\U{2028}' || c == '\U{2029}' ||
    c == '\U{202F}' || c == '\U{205F}' || c == '\U{3000}' || c == '\U{FEFF}'
  }

  /** Drops the leading characters that satisfy `ws`. */
  function TrimStart(s: string, ws: char -> bool): (r: string)
    ensures |r| <= |s| && r == s[|s| - |r|..]
    ensures forall i :: 0 <= i < |s| - |r| ==> ws(s[i])
    ensures r != [] ==> !ws(r[0])
  {
    if s != [] && ws(s[0]) then TrimStart(s[1..], ws) else s
  }

  /** Drops the trailing characters that satisfy `ws`. */
  function TrimEnd(s: string, ws: char -> bool): (r: string)
    ensures |r| <= |s| && r == s[..|r|]
    ensures forall i :: |r| <= i < |s| ==> ws(s[i])
    ensures r != [] ==> !ws(r[|r| - 1])
  {
    if s != [] && ws(s[|s| - 1]) then TrimEnd(s[..|s| - 1], ws) else s
  }

  function Trim(s: string, ws: char -> bool): string
  {
    TrimEnd(TrimStart(s, ws), ws)
  }

  /** Java's `s.trim()`. */
  function JavaTrim(s: string): string
  {
    Trim(s, JavaTrimmable)
  }

  /** JavaScript's `s.trim()`. */
  function JsTrim(s: string): string
  {
    Trim(s, JsWhitespace)
  }

  /** Java's `s.isBlank()`. */
  predicate IsBlank(s: string)
  {
    forall i | 0 <= i < |s| :: JavaWhitespace(s[i])
  }

  /** A string trims to the empty string exactly when all its characters are
      trimmable; this is what "`trim().isEmpty()`" and JavaScript's
      "`!s.trim()`" test. */
  lemma TrimEmptyIffAllTrimmable(s: string, ws: char -> bool)
    ensures Trim(s, ws) == [] <==> forall i :: 0 <= i < |s| ==> ws(s[i])
  {
    var t := TrimStart(s, ws);
    if t != [] {
      assert !ws(t[0]);
      assert !ws(s[|s| - |t|]);
    }
  }

  /** Trimming a trimmed string changes nothing. */
  lemma TrimIdempotent(s: string, ws: char -> bool)
    ensures Trim(Trim(s, ws), ws) == Trim(s, ws)
  {
    var t := Trim(s, ws);
    if t != [] {
      assert !ws(t[0]) && !ws(t[|t| - 1]);
      assert TrimStart(t, ws) == t;
      assert TrimEnd(t, ws) == t;
    }
  }

  /** A trimmed string is a contiguous piece of the original. */
  lemma TrimIsInfix(s: string, ws: char -> bool)
    ensures Contains(s, Trim(s, ws))
  {
    var t := TrimStart(s, ws);
    var u := TrimEnd(t, ws);
    var i := |s| - |t|;
    assert s[i..i + |u|] == t[..|u|];
    assert OccursAt(u, s, i);
  }

  function UpperChar(c: char): char
  {
    if 'a' <= c <= 'z' then (c as int - 32) as char else c
  }

  function LowerChar(c: char): char
  {
    if 'A' <= c <= 'Z' then (c as int + 32) as char else c
  }

  /** `toUpperCase()`, restricted to the ASCII letters. */
  function ToUpper(s: string): (r: string)
    ensures |r| == |s|
  {
    if s == [] then [] else [UpperChar(s[0])] + ToUpper(s[1..])
  }

  /** `toLowerCase()` (and SQL `LOWER`), restricted to the ASCII letters. */
  function ToLower(s: string): (r: string)
    ensures |r| == |s|
  {
    if s == [] then [] else [LowerChar(s[0])] + ToLower(s[1..])
  }

  lemma {:induction false} ToUpperAt(s: string, i: int)
    requires 0 <= i < |s|
    ensures ToUpper(s)[i] == UpperChar(s[i])
  {
    if i > 0 {
      ToUpperAt(s[1..], i - 1);
    }
  }

  lemma {:induction false} ToLowerAt(s: string, i: int)
    requires 0 <= i < |s|
    ensures ToLower(s)[i] == LowerChar(s[i])
  {
    if i > 0 {
      ToLowerAt(s[1..], i - 1);
    }
  }

  /** A string with no lower-case ASCII letter is its own upper-case form. */
  lemma {:induction false} ToUpperFixed(s: string)
    requires forall i :: 0 <= i < |s| ==> !('a' <= s[i] <= 'z')
    ensures ToUpper(s) == s
  {
    if s != [] {
      ToUpperFixed(s[1..]);
    }
  }

  /** Upper-casing twice is upper-casing once. */
  lemma {:induction false} ToUpperIdempotent(s: string)
    ensures ToUpper(ToUpper(s)) == ToUpper(s)
  {
    if s != [] {
      ToUpperIdempotent(s[1..]);
    }
  }

  /** Upper-case ASCII letters only: the shape of every enum constant name. */
  predicate UpperLettersOnly(s: string)
  {
    forall i :: 0 <= i < |s| ==> 'A' <= s[i] <= 'Z'
  }

  /** Upper-casing after lower-casing gives what upper-casing alone gives. */
  lemma {:induction false} UpperAfterLower(s: string)
    ensures ToUpper(ToLower(s)) == ToUpper(s)
  {
    if s != [] {
      UpperAfterLower(s[1..]);
      assert ToLower(s)[1..] == ToLower(s[1..]);
    }
  }

  /** Upper-casing undoes lower-casing on such names. */
  lemma {:induction false} LowerThenUpper(s: string)
    requires UpperLettersOnly(s)
    ensures ToUpper(ToLower(s)) == s
  {
    UpperAfterLower(s);
    ToUpperFixed(s);
  }

  predicate StartsWith(s: string, prefix: string)
  {
    |prefix| <= |s| && s[..|prefix|] == prefix
  }

  predicate OccursAt(t: string, s: string, i: int)
  {
    0 <= i && i + |t| <= |s| && s[i..i + |t|] == t
  }

  /** Java's `s.contains(t)` and JavaScript's `s.includes(t)`. */
  predicate Contains(s: string, t: string)
  {
    exists i | 0 <= i <= |s| - |t| :: OccursAt(t, s, i)
  }

  /** SQL `LOWER(s) LIKE LOWER('%' || t || '%')` and Spring Data's
      `...ContainingIgnoreCase`, with the pattern's characters taken literally. */
  predicate ContainsIgnoreCase(s: string, t: string)
  {
    Contains(ToLower(s), ToLower(t))
  }

  /** `s.lastIndexOf(c)`: the last position holding `c`, or -1. */
  function LastIndexOf(s: string, c: char): (r: int)
    ensures -1 <= r < |s|
    ensures r >= 0 ==> s[r] == c
    ensures forall k :: r < k < |s| ==> s[k] != c
  {
    if s == [] then -1
    else if s[|s| - 1] == c then |s| - 1
    else LastIndexOf(s[..|s| - 1], c)
  }

  /** Code-unit lexicographic order: `a` sorts no later than `b`. */
  predicate LexLe(a: string, b: string)
  {
    if a == [] then true
    else if b == [] then false
    else if a[0] != b[0] then a[0] < b[0]
    else LexLe(a[1..], b[1..])
  }

  lemma {:induction false} LexLeTotal(a: string, b: string)
    ensures LexLe(a, b) || LexLe(b, a)
  {
    if a != [] && b != [] && a[0] == b[0] {
      LexLeTotal(a[1..], b[1..]);
    }
  }

  lemma {:induction false} LexLeTransitive(a: string, b: string, c: string)
    requires LexLe(a, b) && LexLe(b, c)
    ensures LexLe(a, c)
  {
    if a != [] && b != [] && c != [] && a[0] == b[0] && b[0] == c[0] {
      LexLeTransitive(a[1..], b[1..], c[1..]);
    }
  }

  lemma {:induction false} LexLeAntisymmetric(a: string, b: string)
    requires LexLe(a, b) && LexLe(b, a)
    ensures a == b
  {
    if a != [] && b != [] {
      LexLeAntisymmetric(a[1..], b[1..]);
      assert a == [a[0]] + a[1..];
      assert b == [b[0]] + b[1..];
    }
  }
}
