/**
 * Character classes and case mappings as Python's `str` methods and `re`
 * use them, restricted to what the blog scripts need.
 *
 * - `IsSpace` is exactly the set of characters for which `str.isspace()`
 *   holds, which is also what `\s` matches in a `str` pattern.
 * - `IsWordChar` approximates `\w`: ASCII letters, digits and `_`, plus the
 *   Hangul and CJK ideograph blocks (the scripts handle Korean headlines).
 * - Case mappings (`lower()`, `title()`) act on ASCII letters only.
 */
module Chars {

  predicate IsSpace(c: char) {
    || c == ' '
    || ('\t' <= c <= '\r')
    || ('\U{1C}' <= c <= '\U{1F}')
    || c == '\U{85}' || c == '\U{A0}' || c == '\U{1680}'
    || ('\U{2000}' <= c <= '\U{200A}')
    || c == '\U{2028}' || c == '\U{2029}' || c == '\U{202F}' || c == '\U{205F}' || c == '\U{3000}'
  }

  predicate IsDigit(c: char) {
    '0' <= c <= '9'
  }

  predicate IsUpper(c: char) {
    'A' <= c <= 'Z'
  }

  predicate IsLower(c: char) {
    'a' <= c <= 'z'
  }

  /** A cased letter in the sense of `str.title()`. */
  predicate IsCased(c: char) {
    IsUpper(c) || IsLower(c)
  }

  predicate IsWordChar(c: char) {
    || IsCased(c) || IsDigit(c) || c == '_'
    || ('\U{1100}' <= c <= '\U{11FF}')   // Hangul Jamo
    || ('\U{3131}' <= c <= '\U{318E}')   // Hangul compatibility Jamo
    || ('\U{4E00}' <= c <= '\U{9FFF}')   // CJK unified ideographs
    || ('\U{AC00}' <= c <= '\U{D7A3}')   // Hangul syllables
  }

  function ToLower(c: char): (r: char)
    ensures IsCased(c) <==> IsCased(r)
    ensures !IsUpper(r)
    ensures IsCased(c) ==> IsLower(r)
  {
    if IsUpper(c) then (c as int + 32) as char else c
  }

  function ToUpper(c: char): (r: char)
    ensures IsCased(c) <==> IsCased(r)
    ensures !IsLower(r)
    ensures IsCased(c) ==> IsUpper(r)
  {
    if IsLower(c) then (c as int - 32) as char else c
  }

  lemma ToLowerKeepsClass(c: char)
    ensures ToLower(c) == c <==> !IsUpper(c)
    ensures IsWordChar(c) <==> IsWordChar(ToLower(c))
    ensures ToLower(c) == '-' <==> c == '-'
  {
  }

  /** `s.lower()`. */
  function Lower(s: string): (r: string)
    ensures |r| == |s|
    ensures forall i :: 0 <= i < |s| ==> r[i] == ToLower(s[i])
  {
    seq(|s|, i requires 0 <= i < |s| => ToLower(s[i]))
  }

  /** The character `str.title()` writes for `c`, given whether the character before it was cased. */
  function TitleChar(c: char, afterCased: bool): char {
    if !IsCased(c) then c
    else if afterCased then ToLower(c)
    else ToUpper(c)
  }

  /** `str.title()` from a position whose predecessor was (or was not) cased. */
  function TitleFrom(s: string, afterCased: bool): (r: string)
    ensures |r| == |s|
    decreases |s|
  {
    if s == [] then []
    else [TitleChar(s[0], afterCased)] + TitleFrom(s[1..], IsCased(s[0]))
  }

  /** `s.title()`: a cased letter is upper-cased at the start of a word and lower-cased inside one. */
  function TitleCase(s: string): (r: string)
    ensures |r| == |s|
  {
    TitleFrom(s, false)
  }

  lemma {:induction false} TitleFromAt(s: string, afterCased: bool, i: nat)
    requires i < |s|
    ensures TitleFrom(s, afterCased)[i] == TitleChar(s[i], if i == 0 then afterCased else IsCased(s[i - 1]))
    decreases i
  {
    if i > 0 {
      TitleFromAt(s[1..], IsCased(s[0]), i - 1);
    }
  }

  /**
   * Pointwise meaning of `title()`: every cased letter is upper-case exactly
   * when it starts a word (nothing cased precedes it), lower-case otherwise;
   * every other character is kept.
   */
  lemma TitleCaseAt(s: string, i: nat)
    requires i < |s|
    ensures IsCased(s[i]) && (i == 0 || !IsCased(s[i - 1])) ==> TitleCase(s)[i] == ToUpper(s[i])
    ensures IsCased(s[i]) && i > 0 && IsCased(s[i - 1]) ==> TitleCase(s)[i] == ToLower(s[i])
    ensures !IsCased(s[i]) ==> TitleCase(s)[i] == s[i]
  {
    TitleFromAt(s, false, i);
  }

  /** Applying `title()` twice is the same as applying it once. */
  lemma TitleCaseIdempotent(s: string)
    ensures TitleCase(TitleCase(s)) == TitleCase(s)
  {
    var t := TitleCase(s);
    forall i | 0 <= i < |s|
      ensures TitleCase(t)[i] == t[i]
    {
      TitleCaseAt(s, i);
      TitleCaseAt(t, i);
      if i > 0 {
        TitleCaseAt(s, i - 1);
      }
    }
  }
}
