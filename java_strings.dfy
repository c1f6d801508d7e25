/**
 * The few `java.lang.String` operations the library relies on:
 * `startsWith`, `endsWith`, `toLowerCase`, `equalsIgnoreCase`, and the set of
 * characters matched by the regular-expression metacharacter `.`.
 */
module JavaStrings {

  /** `s.startsWith(prefix)` */
  predicate StartsWith(s: string, prefix: string) {
    |prefix| <= |s| && s[..|prefix|] == prefix
  }

  /** `s.endsWith(suffix)` */
  predicate EndsWith(s: string, suffix: string) {
    |suffix| <= |s| && s[|s| - |suffix|..] == suffix
  }

  /** How a locale lower-cases one character inside `String.toLowerCase`. */
  type Lowering = char -> char

  /** The root locale on the ASCII letters: 'A'..'Z' become 'a'..'z'. */
  function RootLower(c: char): char {
    if 'A' <= c <= 'Z' then (c as int + 32) as char else c
  }

  /** The Turkish and Azerbaijani locales: 'I' becomes the dotless 'ı', the other ASCII letters as in the root locale. */
  function TurkishLower(c: char): char {
    if c == 'I' then '\U{0131}' else RootLower(c)
  }

  /** `s.toLowerCase()` in a locale lowering each character by `lower`: the length kept. */
  function ToLowerCase(s: string, lower: Lowering): (r: string)
    ensures |r| == |s|
    ensures forall i :: 0 <= i < |s| ==> r[i] == lower(s[i])
  {
    seq(|s|, i requires 0 <= i < |s| => lower(s[i]))
  }

  /**
   * `Character.toUpperCase` on the characters whose upper case is an ASCII
   * letter: 'a'..'z', the dotless 'ı' and the long 'ſ'. Every other character
   * is kept.
   */
  function FoldUpper(c: char): char {
    if 'a' <= c <= 'z' then (c as int - 32) as char
    else if c == '\U{0131}' then 'I'
    else if c == '\U{017F}' then 'S'
    else c
  }

  /**
   * `Character.toLowerCase` on the characters whose lower case is an ASCII
   * letter: 'A'..'Z', the dotted 'İ' and the Kelvin sign. Every other
   * character is kept.
   */
  function FoldLower(c: char): char {
    if 'A' <= c <= 'Z' then (c as int + 32) as char
    else if c == '\U{0130}' then 'i'
    else if c == '\U{212A}' then 'k'
    else c
  }

  /**
   * The per-character test of `String.equalsIgnoreCase`: the characters are
   * equal, or equal after upper-casing, or equal after upper- then lower-casing.
   */
  predicate CharEqualsIgnoreCase(c: char, d: char) {
    c == d || FoldUpper(c) == FoldUpper(d) || FoldLower(FoldUpper(c)) == FoldLower(FoldUpper(d))
  }

  /** `a.equalsIgnoreCase(b)` for non-null `a` and `b`: same length, and pairwise equal ignoring case. */
  predicate EqualsIgnoreCase(a: string, b: string) {
    |a| == |b| && forall i :: 0 <= i < |a| ==> CharEqualsIgnoreCase(a[i], b[i])
  }

  /** Every character upper- then lower-cased: the key `equalsIgnoreCase` compares. */
  function CaseFold(s: string): (r: string)
    ensures |r| == |s|
  {
    seq(|s|, i requires 0 <= i < |s| => FoldLower(FoldUpper(s[i])))
  }

  /**
   * Two strings are equal ignoring case exactly when their case-folded forms
   * are equal; in particular the relation is transitive.
   */
  lemma EqualsIgnoreCaseIffSameFold(a: string, b: string)
    ensures EqualsIgnoreCase(a, b) <==> CaseFold(a) == CaseFold(b)
  {
    if EqualsIgnoreCase(a, b) {
      forall i | 0 <= i < |a| ensures CaseFold(a)[i] == CaseFold(b)[i] {
        assert CharEqualsIgnoreCase(a[i], b[i]);
      }
    }
    if CaseFold(a) == CaseFold(b) {
      forall i | 0 <= i < |a| ensures CharEqualsIgnoreCase(a[i], b[i]) {
        assert CaseFold(a)[i] == CaseFold(b)[i];
      }
    }
  }

  /**
   * The characters that `.` does not match in a `java.util.regex.Pattern`
   * compiled without `DOTALL` or `UNIX_LINES`: the line terminators.
   */
  predicate IsLineTerminator(c: char) {
    c == '\n' || c == '\r' || c == '\U{0085}' || c == '\U{2028}' || c == '\U{2029}'
  }

  /** Every character of `s` is matched by `.`, so `.+` can consume `s` when it is non-empty. */
  predicate AllDot(s: string) {
    forall i :: 0 <= i < |s| ==> !IsLineTerminator(s[i])
  }
}
