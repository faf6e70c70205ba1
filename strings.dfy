/**
 * The JavaScript string operations the dashboard relies on: `trim`, `toLowerCase`,
 * `includes`, `join`, `replace(/\s+/g, '-')` and the `<` ordering of strings.
 */
module Strings {

  /** The characters JavaScript counts as white space (WhiteSpace and LineTerminator):
      exactly what `trim()` strips and what the regular expression class `\s` matches. */
  predicate IsWhitespace(c: char) {
    || c == '\t' || c == '\n' || c == '\U{000B}' || c == '\U{000C}' || c == '\r' || c == ' '
    || c == '\U{00A0}' || c == '\U{1680}' || ('\U{2000}' <= c <= '\U{200A}')
    || c == '\U{2028}' || c == '\U{2029}' || c == '\U{202F}' || c == '\U{205F}'
    || c == '\U{3000}' || c == '\U{FEFF}'
  }

  /** Every character is white space (the empty string included). */
  predicate IsBlank(s: string) {
    forall i :: 0 <= i < |s| ==> IsWhitespace(s[i])
  }

  /** `s.trimStart()`: `s` without its leading white space. */
  function TrimStart(s: string): (r: string)
    ensures |r| <= |s|
  {
    if s != [] && IsWhitespace(s[0]) then TrimStart(s[1..]) else s
  }

  /** What `trimStart` drops is blank, and what it keeps is a suffix that starts with a
      non-white-space character (or is empty). */
  lemma {:induction false} TrimStartSpec(s: string)
    ensures var r := TrimStart(s);
      && r == s[|s| - |r|..]
      && IsBlank(s[..|s| - |r|])
      && (r != [] ==> !IsWhitespace(r[0]))
      && (IsBlank(s) ==> r == [])
  {
    if s != [] && IsWhitespace(s[0]) {
      TrimStartSpec(s[1..]);
      assert IsBlank(s) ==> IsBlank(s[1..]);
      var r := TrimStart(s);
      assert s[..|s| - |r|] == [s[0]] + s[1..][..|s| - 1 - |r|];
    }
  }

  /** `s.trimEnd()`: `s` without its trailing white space. */
  function TrimEnd(s: string): (r: string)
    ensures |r| <= |s|
  {
    if s != [] && IsWhitespace(s[|s| - 1]) then TrimEnd(s[..|s| - 1]) else s
  }

  /** What `trimEnd` drops is blank, and what it keeps is a prefix. */
  lemma {:induction false} TrimEndSpec(s: string)
    ensures var r := TrimEnd(s);
      && r == s[..|r|]
      && IsBlank(s[|r|..])
  {
    if s != [] && IsWhitespace(s[|s| - 1]) {
      TrimEndSpec(s[..|s| - 1]);
      var r := TrimEnd(s);
      assert s[|r|..] == s[..|s| - 1][|r|..] + [s[|s| - 1]];
    }
  }

  /** `s.trim()`. */
  function Trim(s: string): string {
    TrimEnd(TrimStart(s))
  }

  /** `s.trim()` is the empty (falsy) string exactly when `s` is blank. */
  lemma TrimEmptyIffBlank(s: string)
    ensures Trim(s) == [] <==> IsBlank(s)
  {
    var t := TrimStart(s);
    TrimStartSpec(s);
    TrimEndSpec(t);
    if Trim(s) == [] {
      assert IsBlank(t[0..]);
      assert s == s[..|s| - |t|] + t;
    }
  }

  /** String.prototype.toLowerCase on one character, for the Latin capitals A to Z. */
  function LowerChar(c: char): char {
    if 'A' <= c <= 'Z' then (c as int + 32) as char else c
  }

  /** `s.toLowerCase()`, character by character. */
  function ToLower(s: string): (r: string)
    ensures |r| == |s|
  {
    seq(|s|, i requires 0 <= i < |s| => LowerChar(s[i]))
  }

  /** Lower-casing maps each character on its own. */
  lemma ToLowerSpec(s: string)
    ensures forall i :: 0 <= i < |s| ==> ToLower(s)[i] == LowerChar(s[i])
  {
  }

  /** Lower-casing distributes over concatenation. */
  lemma ToLowerAppend(a: string, b: string)
    ensures ToLower(a + b) == ToLower(a) + ToLower(b)
  {
    assert forall i :: 0 <= i < |a + b| ==> ToLower(a + b)[i] == (ToLower(a) + ToLower(b))[i];
  }

  /** A string without Latin capitals is its own lower-case form. */
  lemma ToLowerNoCapitals(s: string)
    requires forall i :: 0 <= i < |s| ==> !('A' <= s[i] <= 'Z')
    ensures ToLower(s) == s
  {
  }

  /** Lower-casing twice is lower-casing once. */
  lemma ToLowerIdempotent(s: string)
    ensures ToLower(ToLower(s)) == ToLower(s)
  {
    ToLowerSpec(s);
    ToLowerSpec(ToLower(s));
  }

  /** Lower-casing keeps every character's white-space class, so blankness too. */
  lemma ToLowerKeepsBlank(s: string)
    ensures IsBlank(ToLower(s)) <==> IsBlank(s)
  {
    ToLowerSpec(s);
    if IsBlank(ToLower(s)) {
      forall i | 0 <= i < |s| ensures IsWhitespace(s[i]) {
        assert IsWhitespace(ToLower(s)[i]);
      }
    }
  }

  /** `text.includes(q)`: `q` occurs in `text` at some position. */
  function Contains(text: string, q: string): bool {
    if q <= text then true
    else if text == [] then false
    else Contains(text[1..], q)
  }

  /** `includes` is true exactly when `q` is a prefix of some suffix of `text`. */
  lemma {:induction false} ContainsIff(text: string, q: string)
    ensures Contains(text, q) <==> exists i :: 0 <= i <= |text| && q <= text[i..]
  {
    if q <= text {
      assert q <= text[0..];
    } else if text != [] {
      ContainsIff(text[1..], q);
      assert forall i :: 1 <= i <= |text| ==> text[i..] == text[1..][i - 1..];
    }
  }

  /** `parts.join(sep)`. */
  function Join(parts: seq<string>, sep: string): string {
    if |parts| == 0 then "" else if |parts| == 1 then parts[0] else parts[0] + sep + Join(parts[1..], sep)
  }

  /** `s.replace(/\s+/g, '-')`: every maximal run of white space becomes one hyphen. */
  function HyphenateWhitespace(s: string): string
    decreases |s|
  {
    if s == [] then []
    else if IsWhitespace(s[0]) then "-" + HyphenateWhitespace(TrimStart(s[1..]))
    else [s[0]] + HyphenateWhitespace(s[1..])
  }

  /** The report-type key: lower-cased, white-space runs replaced by hyphens. */
  function Slug(s: string): string {
    HyphenateWhitespace(ToLower(s))
  }

  /** The result has no white space, and every character of it is a hyphen or comes from `s`. */
  lemma {:induction false} HyphenateSpec(s: string)
    ensures forall c :: c in HyphenateWhitespace(s) ==> !IsWhitespace(c) && (c == '-' || c in s)
    decreases |s|
  {
    if s == [] {
    } else if IsWhitespace(s[0]) {
      var t := TrimStart(s[1..]);
      HyphenateSpec(t);
      TrimStartSpec(s[1..]);
      assert forall c :: c in t ==> c in s[1..];
      assert HyphenateWhitespace(s) == "-" + HyphenateWhitespace(t);
    } else {
      HyphenateSpec(s[1..]);
      assert HyphenateWhitespace(s) == [s[0]] + HyphenateWhitespace(s[1..]);
    }
  }

  /** A string without white space is left as it is. */
  lemma {:induction false} HyphenateNoWhitespace(s: string)
    requires forall i :: 0 <= i < |s| ==> !IsWhitespace(s[i])
    ensures HyphenateWhitespace(s) == s
  {
    if s != [] {
      HyphenateNoWhitespace(s[1..]);
    }
  }

  /** A prefix without white space passes through unchanged. */
  lemma {:induction false} HyphenatePrefix(a: string, t: string)
    requires forall i :: 0 <= i < |a| ==> !IsWhitespace(a[i])
    ensures HyphenateWhitespace(a + t) == a + HyphenateWhitespace(t)
  {
    if a == [] {
      assert a + t == t;
    } else {
      var at := a + t;
      assert at[0] == a[0] && !IsWhitespace(at[0]);
      assert at[1..] == a[1..] + t;
      HyphenatePrefix(a[1..], t);
      calc {
        HyphenateWhitespace(at);
        [a[0]] + HyphenateWhitespace(a[1..] + t);
        [a[0]] + (a[1..] + HyphenateWhitespace(t));
        { assert [a[0]] + a[1..] == a; }
        a + HyphenateWhitespace(t);
      }
    }
  }

  /** A non-empty white-space run followed by a non-white-space character (or the end)
      becomes exactly one hyphen. */
  lemma {:induction false} HyphenateRun(w: string, t: string)
    requires w != [] && IsBlank(w)
    requires t != [] ==> !IsWhitespace(t[0])
    ensures HyphenateWhitespace(w + t) == "-" + HyphenateWhitespace(t)
  {
    assert (w + t)[0] == w[0];
    assert (w + t)[1..] == w[1..] + t;
    TrimStartBlankPrefix(w[1..], t);
    assert IsWhitespace((w + t)[0]);
  }

  lemma {:induction false} TrimStartBlankPrefix(w: string, t: string)
    requires IsBlank(w)
    requires t != [] ==> !IsWhitespace(t[0])
    ensures TrimStart(w + t) == t
  {
    if w == [] {
      assert w + t == t;
    } else {
      assert (w + t)[1..] == w[1..] + t;
      TrimStartBlankPrefix(w[1..], t);
    }
  }

  /** White-space replacement keeps every other character. */
  lemma {:induction false} HyphenateKeeps(s: string, c: char)
    requires c in s && !IsWhitespace(c)
    ensures c in HyphenateWhitespace(s)
    decreases |s|
  {
    if s[0] == c {
      assert HyphenateWhitespace(s)[0] == c;
    } else {
      assert c in s[1..];
      if IsWhitespace(s[0]) {
        var t := TrimStart(s[1..]);
        TrimStartSpec(s[1..]);
        var k :| 0 <= k < |s[1..]| && s[1..][k] == c;
        assert k >= |s[1..]| - |t|;
        assert t[k - (|s[1..]| - |t|)] == c;
        HyphenateKeeps(t, c);
        assert HyphenateWhitespace(s) == "-" + HyphenateWhitespace(t);
      } else {
        HyphenateKeeps(s[1..], c);
        assert HyphenateWhitespace(s) == [s[0]] + HyphenateWhitespace(s[1..]);
      }
    }
  }

  /** The slug keeps every character that is neither white space nor a Latin capital. */
  lemma SlugKeeps(s: string, c: char)
    requires c in s && !IsWhitespace(c) && !('A' <= c <= 'Z')
    ensures c in Slug(s)
  {
    var k :| 0 <= k < |s| && s[k] == c;
    assert ToLower(s)[k] == c;
    HyphenateKeeps(ToLower(s), c);
  }

  /** Slugging a slug changes nothing: a slug has no white space and no capitals. */
  lemma SlugIdempotent(s: string)
    ensures Slug(Slug(s)) == Slug(s)
  {
    var t := Slug(s);
    var l := ToLower(s);
    HyphenateSpec(l);
    ToLowerSpec(s);
    ToLowerSpec(t);
    assert forall i :: 0 <= i < |t| ==> LowerChar(t[i]) == t[i] by {
      forall i | 0 <= i < |t| ensures LowerChar(t[i]) == t[i] {
        assert t[i] in t;
        if t[i] != '-' {
          assert t[i] in l;
          var k :| 0 <= k < |l| && l[k] == t[i];
        }
      }
    }
    assert forall i :: 0 <= i < |t| ==> !IsWhitespace(t[i]) by {
      forall i | 0 <= i < |t| ensures !IsWhitespace(t[i]) {
        assert t[i] in t;
      }
    }
    assert ToLower(t) == t;
    HyphenateNoWhitespace(t);
  }

  /** JavaScript's `a < b` on strings: lexicographic order of the characters. */
  predicate LexLess(a: string, b: string) {
    if a == [] then b != []
    else if b == [] then false
    else if a[0] != b[0] then a[0] < b[0]
    else LexLess(a[1..], b[1..])
  }

  lemma {:induction false} LexLessIrreflexive(a: string)
    ensures !LexLess(a, a)
  {
    if a != [] {
      LexLessIrreflexive(a[1..]);
    }
  }

  lemma {:induction false} LexLessTransitive(a: string, b: string, c: string)
    requires LexLess(a, b) && LexLess(b, c)
    ensures LexLess(a, c)
  {
    if a != [] && b != [] && c != [] && a[0] == b[0] && b[0] == c[0] {
      LexLessTransitive(a[1..], b[1..], c[1..]);
    }
  }

  /** Any two different strings are ordered one way or the other. */
  lemma {:induction false} LexLessTotal(a: string, b: string)
    requires a != b
    ensures LexLess(a, b) || LexLess(b, a)
  {
    if a != [] && b != [] && a[0] == b[0] {
      assert a == [a[0]] + a[1..] && b == [b[0]] + b[1..];
      LexLessTotal(a[1..], b[1..]);
    }
  }

  lemma {:induction false} LexLessAsymmetric(a: string, b: string)
    requires LexLess(a, b)
    ensures !LexLess(b, a)
  {
    if a != [] && b != [] && a[0] == b[0] {
      LexLessAsymmetric(a[1..], b[1..]);
    }
  }

  /** The three-way result of comparing two strings with `<` and `>`: -1, 1 or 0. */
  function StringCompare(a: string, b: string): int {
    if LexLess(a, b) then -1 else if LexLess(b, a) then 1 else 0
  }

  /** The comparison is antisymmetric, and 0 only for equal strings. */
  lemma StringCompareAntisymmetric(a: string, b: string)
    ensures StringCompare(b, a) == -StringCompare(a, b)
    ensures StringCompare(a, b) == 0 <==> a == b
  {
    if LexLess(a, b) {
      LexLessAsymmetric(a, b);
    }
    if a == b {
      LexLessIrreflexive(a);
    } else {
      LexLessTotal(a, b);
    }
  }

  /** "Compares at most" is transitive: the comparison is a total preorder (indeed an order). */
  lemma StringCompareTransitive(a: string, b: string, c: string)
    requires StringCompare(a, b) <= 0 && StringCompare(b, c) <= 0
    ensures StringCompare(a, c) <= 0
  {
    StringCompareAntisymmetric(a, b);
    StringCompareAntisymmetric(b, c);
    StringCompareAntisymmetric(a, c);
    if a != b && b != c {
      LexLessTransitive(a, b, c);
      LexLessAsymmetric(a, c);
    }
  }
}
