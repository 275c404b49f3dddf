/** The slice of JavaScript string behaviour the components rely on: character
    classes of the regular expressions they use, `String.prototype.length`
    (UTF-16 code units), `trim`, `Array.prototype.join('')`, the key-input
    sanitiser `replace(/[^0-9]/g, '').slice(0, 1)`, and decimal printing and
    parsing of natural numbers. */
module Text {
  import opened Wrappers

  // ---------------------------------------------------------------------------
  // Character classes
  // ---------------------------------------------------------------------------

  /** `\d` and `[0-9]` without the `u` flag: the ten ASCII digits only */
  predicate IsAsciiDigit(c: char) {
    '0' <= c <= '9'
  }

  predicate IsAsciiLower(c: char) {
    'a' <= c <= 'z'
  }

  predicate IsAsciiUpper(c: char) {
    'A' <= c <= 'Z'
  }

  /** Membership in `[A-Za-z0-9]` */
  predicate IsAsciiAlnum(c: char) {
    IsAsciiLower(c) || IsAsciiUpper(c) || IsAsciiDigit(c)
  }

  /** The characters `.` refuses to match (ECMAScript LineTerminator) */
  predicate IsLineTerminator(c: char) {
    c == '\n' || c == '\r' || c == '\U{2028}' || c == '\U{2029}'
  }

  /** The characters `trim` removes: ECMAScript WhiteSpace and LineTerminator */
  predicate IsTrimmable(c: char) {
    || c == '\t' || c == '\U{000B}' || c == '\U{000C}' || c == ' '
    || c == '\U{00A0}' || c == '\U{1680}' || ('\U{2000}' <= c <= '\U{200A}')
    || c == '\U{202F}' || c == '\U{205F}' || c == '\U{3000}' || c == '\U{FEFF}'
    || IsLineTerminator(c)
  }

  predicate AllDigits(s: string) {
    forall i :: 0 <= i < |s| ==> IsAsciiDigit(s[i])
  }

  // ---------------------------------------------------------------------------
  // JavaScript string semantics
  // ---------------------------------------------------------------------------

  /** `s.length`: a character outside the Basic Multilingual Plane is a
      surrogate pair and counts twice */
  function Utf16Length(s: string): nat {
    if s == [] then 0
    else (if s[0] as int > 0xFFFF then 2 else 1) + Utf16Length(s[1..])
  }

  /** JavaScript truthiness of a possibly absent string: present and non-empty */
  predicate Truthy(s: Option<string>) {
    s.Some? && s.value != ""
  }

  /** `s || fallback` for a possibly absent string */
  function OrElse(s: Option<string>, fallback: string): string {
    if Truthy(s) then s.value else fallback
  }

  /** `s.replace(/[^0-9]/g, '')` */
  function KeepDigits(s: string): string {
    if s == [] then []
    else (if IsAsciiDigit(s[0]) then [s[0]] else []) + KeepDigits(s[1..])
  }

  /** `s.replace(/[^0-9]/g, '').slice(0, 1)`: the value a pass-key box keeps */
  function SanitizeDigit(raw: string): (r: string)
    ensures |r| <= 1 && AllDigits(r)
    ensures r == "" <==> forall i :: 0 <= i < |raw| ==> !IsAsciiDigit(raw[i])
    ensures r != "" ==> exists i :: 0 <= i < |raw| && r == [raw[i]]
                                   && (forall j :: 0 <= j < i ==> !IsAsciiDigit(raw[j]))
  {
    var d := KeepDigits(raw);
    KeepDigitsProps(raw);
    if d == [] then "" else d[..1]
  }

  /** `KeepDigits` keeps only digits; it is empty exactly when `s` has none, and
      otherwise starts with the first digit of `s`. */
  lemma {:induction false} KeepDigitsProps(s: string)
    ensures AllDigits(KeepDigits(s))
    ensures KeepDigits(s) == [] <==> forall i :: 0 <= i < |s| ==> !IsAsciiDigit(s[i])
    ensures KeepDigits(s) != [] ==>
              exists i :: 0 <= i < |s| && KeepDigits(s)[0] == s[i]
                          && (forall j :: 0 <= j < i ==> !IsAsciiDigit(s[j]))
  {
    if s != [] {
      KeepDigitsProps(s[1..]);
      var tail := s[1..];
      if IsAsciiDigit(s[0]) {
        assert KeepDigits(s)[0] == s[0];
      } else {
        assert KeepDigits(s) == KeepDigits(tail);
        if KeepDigits(tail) != [] {
          var i :| 0 <= i < |tail| && KeepDigits(tail)[0] == tail[i]
                   && (forall j :: 0 <= j < i ==> !IsAsciiDigit(tail[j]));
          assert s[i + 1] == tail[i];
          assert forall j :: 0 <= j < i + 1 ==> !IsAsciiDigit(s[j]) by {
            forall j | 0 <= j < i + 1 ensures !IsAsciiDigit(s[j]) {
              if j > 0 { assert s[j] == tail[j - 1]; }
            }
          }
        } else {
          forall i | 0 <= i < |s| ensures !IsAsciiDigit(s[i]) {
            if i > 0 { assert s[i] == tail[i - 1]; }
          }
        }
      }
    }
  }

  /** `s.trimStart()` */
  function TrimStart(s: string): string {
    if s != [] && IsTrimmable(s[0]) then TrimStart(s[1..]) else s
  }

  /** `s.trimEnd()` */
  function TrimEnd(s: string): string {
    if s != [] && IsTrimmable(s[|s| - 1]) then TrimEnd(s[..|s| - 1]) else s
  }

  /** `s.trim()` */
  function Trim(s: string): string {
    TrimEnd(TrimStart(s))
  }

  /** A string of digits has no whitespace to lose at either end */
  lemma TrimKeepsDigits(s: string)
    requires AllDigits(s)
    ensures Trim(s) == s
  {
    if s != [] {
      assert IsAsciiDigit(s[0]) && IsAsciiDigit(s[|s| - 1]);
    }
  }

  /** `xs.join('')` */
  function Concat(xs: seq<string>): string {
    if xs == [] then "" else Concat(xs[..|xs| - 1]) + xs[|xs| - 1]
  }

  // ---------------------------------------------------------------------------
  // Decimal numerals
  // ---------------------------------------------------------------------------

  function DigitChar(d: nat): (c: char)
    requires d < 10
    ensures IsAsciiDigit(c)
  {
    ('0' as int + d) as char
  }

  function DigitValue(c: char): (d: nat)
    requires IsAsciiDigit(c)
    ensures d < 10 && DigitChar(d) == c
  {
    c as int - '0' as int
  }

  /** The decimal value of a run of ASCII digits, as `Number()` reads it
      (leading zeros allowed, no rounding) */
  function ParseDecimal(s: string): nat
    requires AllDigits(s)
  {
    if s == [] then 0
    else 10 * ParseDecimal(s[..|s| - 1]) + DigitValue(s[|s| - 1])
  }

  /** Template-literal interpolation `${n}` of a natural number */
  function DecimalString(n: nat): (s: string)
    ensures s != [] && AllDigits(s)
  {
    if n < 10 then [DigitChar(n)] else DecimalString(n / 10) + [DigitChar(n % 10)]
  }

  /** Printing a number and reading it back gives the number */
  lemma {:induction false} ParsePrintRoundTrip(n: nat)
    ensures ParseDecimal(DecimalString(n)) == n
  {
    var s := DecimalString(n);
    if n < 10 {
      assert s[..|s| - 1] == [];
    } else {
      ParsePrintRoundTrip(n / 10);
      assert s[..|s| - 1] == DecimalString(n / 10);
      assert DigitValue(s[|s| - 1]) == n % 10;
    }
  }
}
