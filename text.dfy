/** Character and string predicates used by the frontend and the backend. */
module Text {
  import opened Wrappers

  // ---------------------------------------------------------------- digits

  /** The ASCII digits, the characters `\d` matches in a JavaScript regular expression. */
  predicate IsDigit(c: char) { '0' <= c <= '9' }

  predicate AllDigits(s: string) { forall i :: 0 <= i < |s| ==> IsDigit(s[i]) }

  /** `s.replace(/[^\d]/g, '')`: the digits of `s`, in order. */
  function Digits(s: string): (r: string)
    ensures AllDigits(r) && |r| <= |s|
    ensures AllDigits(s) ==> r == s
  {
    if s == [] then []
    else (if IsDigit(s[0]) then [s[0]] else []) + Digits(s[1..])
  }

  lemma {:induction false} DigitsConcat(a: string, b: string)
    ensures Digits(a + b) == Digits(a) + Digits(b)
  {
    if a == [] {
      assert a + b == b;
    } else {
      assert (a + b)[1..] == a[1..] + b;
      DigitsConcat(a[1..], b);
    }
  }

  lemma DigitsIdempotent(s: string)
    ensures Digits(Digits(s)) == Digits(s)
  {
  }

  // ------------------------------------------------------------ whitespace

  /** Unicode category Zs (space separators). */
  predicate IsSpaceSeparator(c: char) {
    c == ' ' || c == '\U{00A0}' || c == '\U{1680}' || ('\U{2000}' <= c <= '\U{200A}')
    || c == '\U{202F}' || c == '\U{205F}' || c == '\U{3000}'
  }

  /** The characters JavaScript's `String.prototype.trim` removes: WhiteSpace and LineTerminator. */
  predicate IsJsWhitespace(c: char) {
    IsSpaceSeparator(c) || c == '\t' || c == '\n' || c == '\U{000B}' || c == '\U{000C}' || c == '\r'
    || c == '\U{2028}' || c == '\U{2029}' || c == '\U{FEFF}'
  }

  /** The characters .NET's `char.IsWhiteSpace` accepts. */
  predicate IsDotNetWhitespace(c: char) {
    IsSpaceSeparator(c) || ('\t' <= c <= '\r') || c == '\U{0085}' || c == '\U{2028}' || c == '\U{2029}'
  }

  /** JavaScript's `!s`: null, undefined or the empty string. */
  predicate IsFalsy(s: Option<string>) { s.None? || s.value == "" }

  /** JavaScript's `!s || s.trim() === ''`: trimming leaves nothing exactly when every character is whitespace. */
  predicate IsJsBlank(s: Option<string>) {
    s.None? || forall i :: 0 <= i < |s.value| ==> IsJsWhitespace(s.value[i])
  }

  /** .NET's `string.IsNullOrWhiteSpace`. */
  predicate IsNullOrWhiteSpace(s: Option<string>) {
    s.None? || forall i :: 0 <= i < |s.value| ==> IsDotNetWhitespace(s.value[i])
  }

  lemma FalsyIsBlank(s: Option<string>)
    ensures IsFalsy(s) ==> IsJsBlank(s)
  {
  }

  // ------------------------------------------------------------ substrings

  predicate IsPrefix(p: string, s: string) { |p| <= |s| && s[..|p|] == p }

  /** `s.Contains(sub)`, `s.includes(sub)`, and SQL `s LIKE '%' + sub + '%'` read without wildcards. */
  predicate Contains(s: string, sub: string)
    decreases |s|
  {
    IsPrefix(sub, s) || (|s| > 0 && Contains(s[1..], sub))
  }

  /** `sub` occurs in `s` starting at index `i`. */
  predicate OccursAt(s: string, sub: string, i: int) {
    0 <= i <= |s| - |sub| && s[i..i + |sub|] == sub
  }

  /** The recursive `Contains` agrees with the positional reading "occurs at some index". */
  lemma {:induction false} ContainsAt(s: string, sub: string)
    ensures Contains(s, sub) <==> exists i :: OccursAt(s, sub, i)
    decreases |s|
  {
    if IsPrefix(sub, s) {
      assert OccursAt(s, sub, 0);
    } else if |s| > 0 {
      ContainsAt(s[1..], sub);
      if Contains(s[1..], sub) {
        var i :| OccursAt(s[1..], sub, i);
        assert s[1..][i..i + |sub|] == s[i + 1..i + 1 + |sub|];
        assert OccursAt(s, sub, i + 1);
      }
      if exists i :: OccursAt(s, sub, i) {
        var i :| OccursAt(s, sub, i);
        assert i != 0;
        assert s[1..][i - 1..i - 1 + |sub|] == s[i..i + |sub|];
        assert OccursAt(s[1..], sub, i - 1);
      }
    }
  }

  lemma ContainsSelf(s: string)
    ensures Contains(s, s)
  {
    assert IsPrefix(s, s);
  }

  lemma ContainsEmpty(s: string)
    ensures Contains(s, "")
  {
    assert IsPrefix("", s);
  }

  // ---------------------------------------------------- case-insensitivity

  /** Upper-case mapping of ASCII and Latin-1 letters (the letters of Portuguese text). */
  function ToUpper(c: char): char {
    if 'a' <= c <= 'z' || ('\U{00E0}' <= c <= '\U{00FE}' && c != '\U{00F7}') then (c as int - 32) as char else c
  }

  function UpperAll(s: string): (r: string)
    ensures |r| == |s| && forall i :: 0 <= i < |s| ==> r[i] == ToUpper(s[i])
  {
    seq(|s|, i requires 0 <= i < |s| => ToUpper(s[i]))
  }

  /** `a.Equals(b, StringComparison.OrdinalIgnoreCase)` */
  predicate EqualsIgnoreCase(a: string, b: string) { UpperAll(a) == UpperAll(b) }

  /** `s.Contains(sub, StringComparison.OrdinalIgnoreCase)` */
  predicate ContainsIgnoreCase(s: string, sub: string) { Contains(UpperAll(s), UpperAll(sub)) }

  lemma EqualsImpliesContainsIgnoreCase(a: string, b: string)
    ensures EqualsIgnoreCase(a, b) ==> ContainsIgnoreCase(a, b)
  {
    ContainsSelf(UpperAll(a));
  }

  /** A string contains, ignoring case, each of its own prefixes. */
  lemma PrefixContainedIgnoreCase(p: string, rest: string)
    ensures ContainsIgnoreCase(p + rest, p)
  {
    var u := UpperAll(p + rest);
    assert u[..|p|] == UpperAll(p);
    assert IsPrefix(UpperAll(p), u);
  }

  // ------------------------------------------------------------- ordering

  /** Lexicographic order on code points, a stand-in for the database collation of `ORDER BY`. */
  predicate StrLe(a: string, b: string)
    decreases |a|
  {
    if a == [] then true
    else if b == [] then false
    else if a[0] != b[0] then a[0] < b[0]
    else StrLe(a[1..], b[1..])
  }

  lemma {:induction false} StrLeTotal(a: string, b: string)
    ensures StrLe(a, b) || StrLe(b, a)
    decreases |a|
  {
    if a != [] && b != [] && a[0] == b[0] {
      StrLeTotal(a[1..], b[1..]);
    }
  }

  lemma {:induction false} StrLeTransitive(a: string, b: string, c: string)
    requires StrLe(a, b) && StrLe(b, c)
    ensures StrLe(a, c)
    decreases |a|
  {
    if a != [] && b != [] && c != [] && a[0] == b[0] && b[0] == c[0] {
      StrLeTransitive(a[1..], b[1..], c[1..]);
    }
  }
}
