/**
 * Percent-decoding as `urllib.parse.unquote` does it for escapes of ASCII
 * bytes: `%XX` with two hexadecimal digits (either case) becomes the
 * character with that code; a `%` not followed by two hex digits stays as it is.
 */
module PercentCoding {
  import opened Options

  function HexValue(c: char): (r: Option<nat>)
    ensures r.Some? ==> r.value < 16
  {
    if '0' <= c <= '9' then Some(c as int - '0' as int)
    else if 'a' <= c <= 'f' then Some(c as int - 'a' as int + 10)
    else if 'A' <= c <= 'F' then Some(c as int - 'A' as int + 10)
    else None
  }

  /** The upper-case hexadecimal digit for `n`, as `quote` writes it. */
  function HexDigit(n: nat): (c: char)
    requires n < 16
    ensures HexValue(c) == Some(n)
  {
    if n < 10 then ('0' as int + n) as char else ('A' as int + n - 10) as char
  }

  predicate IsEscapeAt(s: string, i: nat) {
    i + 3 <= |s| && s[i] == '%' && HexValue(s[i + 1]).Some? && HexValue(s[i + 2]).Some?
  }

  /** `urllib.parse.unquote(s)`. */
  function Unquote(s: string): (r: string)
    ensures |r| <= |s|
    decreases |s|
  {
    if s == [] then []
    else if IsEscapeAt(s, 0) then
      [(16 * HexValue(s[1]).value + HexValue(s[2]).value) as char] + Unquote(s[3..])
    else [s[0]] + Unquote(s[1..])
  }

  /** Every character written as `%XX`; characters of code below 256 only. */
  function Escape(s: string): (r: string)
    requires forall i :: 0 <= i < |s| ==> s[i] as int < 256
    ensures |r| == 3 * |s|
    ensures forall i :: 0 <= i < |r| ==> r[i] == '%' || HexValue(r[i]).Some?
  {
    if s == [] then []
    else
      var c := s[0] as int;
      ['%', HexDigit(c / 16), HexDigit(c % 16)] + Escape(s[1..])
  }

  /** Decoding an escaped string gives back the original: `unquote` inverts the escaping. */
  lemma {:induction false} UnquoteEscape(s: string)
    requires forall i :: 0 <= i < |s| ==> s[i] as int < 256
    ensures Unquote(Escape(s)) == s
  {
    if s != [] {
      var e := Escape(s);
      UnquoteEscape(s[1..]);
      assert e[3..] == Escape(s[1..]);
      assert IsEscapeAt(e, 0);
    }
  }

  /** A string without `%` decodes to itself (the fast path of `unquote`). */
  lemma {:induction false} UnquoteWithoutPercent(s: string)
    requires forall i :: 0 <= i < |s| ==> s[i] != '%'
    ensures Unquote(s) == s
  {
    if s != [] {
      UnquoteWithoutPercent(s[1..]);
    }
  }
}
