/** String helpers shared by the browser script and the PHP endpoints: the
    parts of JavaScript's and PHP's string library that the agenda relies on. */
module Texto {

  datatype Option<T> = None | Some(value: T)

  // ---------------------------------------------------------------------------
  // Characters
  // ---------------------------------------------------------------------------

  predicate IsDigit(c: char) { '0' <= c <= '9' }

  predicate AllDigits(s: string) { forall i :: 0 <= i < |s| ==> IsDigit(s[i]) }

  /** JavaScript white space and line terminators: what `String.prototype.trim`
      strips and what the regular-expression class `\s` matches. */
  predicate IsJsSpace(c: char) {
    || c == ' ' || c == '\t' || c == '\n' || c == '\r'
    || c == '\U{B}' || c == '\U{C}' || c == '\U{A0}' || c == '\U{1680}'
    || ('\U{2000}' <= c <= '\U{200A}')
    || c == '\U{2028}' || c == '\U{2029}' || c == '\U{202F}' || c == '\U{205F}'
    || c == '\U{3000}' || c == '\U{FEFF}'
  }

  /** The characters PHP's `trim` strips by default. */
  predicate IsPhpSpace(c: char) {
    c == ' ' || c == '\t' || c == '\n' || c == '\r' || c == '\0' || c == '\U{B}'
  }

  /** The capitals `toLowerCase` maps here: A-Z and the Latin-1 capitals
      (Á, É, Ñ, ...), but not the multiplication sign. */
  predicate IsUpper(c: char) {
    'A' <= c <= 'Z' || ('\U{C0}' <= c <= '\U{DE}' && c != '\U{D7}')
  }

  /** `toLowerCase` on the letters a Spanish agenda holds: each capital is
      mapped 32 code points up, to its small letter. */
  function LowerChar(c: char): (r: char)
    ensures !IsUpper(r)
    ensures !IsUpper(c) ==> r == c
    ensures IsUpper(c) ==> r as int == c as int + 32
  {
    if IsUpper(c) then (c as int + 32) as char else c
  }

  /** `s.toLowerCase()`: no capital survives, and every other character,
      digits and spaces included, stays where it was. */
  function ToLower(s: string): (r: string)
    ensures |r| == |s|
    ensures forall i :: 0 <= i < |r| ==> !IsUpper(r[i])
    ensures forall i :: 0 <= i < |s| ==> r[i] == LowerChar(s[i])
  {
    seq(|s|, i requires 0 <= i < |s| => LowerChar(s[i]))
  }

  /** Lower-casing twice lower-cases once: a term and a name both put through
      `toLowerCase` are compared on the same footing. */
  lemma ToLowerIdempotent(s: string)
    ensures ToLower(ToLower(s)) == ToLower(s)
  {
    var r := ToLower(s);
    forall i | 0 <= i < |r| ensures ToLower(r)[i] == r[i] {
      assert !IsUpper(r[i]);
    }
  }

  // ---------------------------------------------------------------------------
  // Trimming
  // ---------------------------------------------------------------------------

  /** Number of leading characters that satisfy `isSpace`. */
  function LeadingCount(s: string, isSpace: char -> bool): (n: nat)
    ensures n <= |s|
    ensures forall k :: 0 <= k < n ==> isSpace(s[k])
    ensures n < |s| ==> !isSpace(s[n])
  {
    if s == [] || !isSpace(s[0]) then 0
    else 1 + LeadingCount(s[1..], isSpace)
  }

  /** Number of trailing characters that satisfy `isSpace`. */
  function TrailingCount(s: string, isSpace: char -> bool): (n: nat)
    ensures n <= |s|
    ensures forall k :: |s| - n <= k < |s| ==> isSpace(s[k])
    ensures n < |s| ==> !isSpace(s[|s| - 1 - n])
  {
    if s == [] || !isSpace(s[|s| - 1]) then 0
    else 1 + TrailingCount(s[..|s| - 1], isSpace)
  }

  /** `trim`: `s` without its leading and trailing white space. The result is
      the slice of `s` between two all-space ends, and it neither starts nor
      ends with a space. */
  function Trim(s: string, isSpace: char -> bool): (r: string)
    ensures |r| <= |s|
    ensures r == [] || (!isSpace(r[0]) && !isSpace(r[|r| - 1]))
    ensures exists i :: Framed(s, r, i, isSpace)
    ensures (forall k :: 0 <= k < |s| ==> isSpace(s[k])) <==> r == []
  {
    var a := LeadingCount(s, isSpace);
    if a == |s| then
      assert Framed(s, [], |s|, isSpace);
      []
    else
      var b := TrailingCount(s[a..], isSpace);
      var r := s[a..|s| - b];
      assert s[a..][|s[a..]| - 1 - b] == r[|r| - 1];
      assert Framed(s, r, a, isSpace);
      assert !isSpace(s[a]);
      r
  }

  /** Trimming twice trims nothing more. */
  lemma TrimIdempotent(s: string, isSpace: char -> bool)
    ensures Trim(Trim(s, isSpace), isSpace) == Trim(s, isSpace)
  {
    var r := Trim(s, isSpace);
    if r != [] {
      assert LeadingCount(r, isSpace) == 0;
      assert r[0..] == r;
      assert TrailingCount(r, isSpace) == 0;
      assert r[0..|r| - 0] == r;
    }
  }

  /** `r` sits at position `i` of `s`, and everything around it is space. */
  ghost predicate Framed(s: string, r: string, i: int, isSpace: char -> bool) {
    && 0 <= i <= |s| - |r|
    && s[i..i + |r|] == r
    && (forall k :: 0 <= k < i ==> isSpace(s[k]))
    && (forall k :: i + |r| <= k < |s| ==> isSpace(s[k]))
  }

  function JsTrim(s: string): string { Trim(s, IsJsSpace) }

  function PhpTrim(s: string): string { Trim(s, IsPhpSpace) }

  // ---------------------------------------------------------------------------
  // Searching, splitting, padding
  // ---------------------------------------------------------------------------

  ghost predicate OccursAt(s: string, t: string, i: int) {
    0 <= i && i + |t| <= |s| && s[i..i + |t|] == t
  }

  /** When `t` is not a prefix of `s`, it occurs in `s` exactly when it occurs
      in `s` without its first character. */
  lemma OccursInTail(s: string, t: string)
    requires |t| <= |s| && s[..|t|] != t
    ensures (exists i :: OccursAt(s, t, i)) <==> (exists i :: OccursAt(s[1..], t, i))
  {
    forall i | OccursAt(s, t, i)
      ensures OccursAt(s[1..], t, i - 1)
    {
      assert i != 0;
      assert s[1..][i - 1..i - 1 + |t|] == s[i..i + |t|];
    }
    forall i | OccursAt(s[1..], t, i)
      ensures OccursAt(s, t, i + 1)
    {
      assert s[1..][i..i + |t|] == s[i + 1..i + 1 + |t|];
    }
  }

  /** `s.includes(t)`: `t` occurs somewhere in `s`. */
  function Contains(s: string, t: string): (r: bool)
    ensures r <==> exists i :: OccursAt(s, t, i)
    decreases |s|
  {
    if |t| > |s| then false
    else if s[..|t|] == t then
      assert OccursAt(s, t, 0);
      true
    else
      OccursInTail(s, t);
      Contains(s[1..], t)
  }

  /** Position of the first `c` in `s`, or `|s|` when there is none. */
  function IndexOf(s: string, c: char): (i: nat)
    ensures i <= |s|
    ensures i < |s| ==> s[i] == c
    ensures c !in s[..i]
    ensures i == |s| <==> c !in s
  {
    if s == [] then 0
    else if s[0] == c then 0
    else
      var j := IndexOf(s[1..], c);
      assert s[..1 + j] == [s[0]] + s[1..][..j];
      1 + j
  }

  /** The pieces joined back with `sep` between them. */
  function Join(parts: seq<string>, sep: char): string
    requires |parts| >= 1
  {
    if |parts| == 1 then parts[0] else parts[0] + [sep] + Join(parts[1..], sep)
  }

  /** `s.split(sep)` for a one-character separator: the pieces hold no `sep` and
      joining them with `sep` gives `s` back. */
  function Split(s: string, sep: char): (parts: seq<string>)
    ensures |parts| >= 1
    ensures forall k :: 0 <= k < |parts| ==> sep !in parts[k]
    ensures Join(parts, sep) == s
    decreases |s|
  {
    var i := IndexOf(s, sep);
    if i == |s| then [s]
    else
      var rest := Split(s[i + 1..], sep);
      var parts := [s[..i]] + rest;
      assert parts[1..] == rest;
      assert s == s[..i] + [sep] + s[i + 1..];
      parts
  }

  /** Splitting is the inverse of joining pieces that hold no separator. */
  lemma {:induction false} SplitJoin(parts: seq<string>, sep: char)
    requires |parts| >= 1
    requires forall k :: 0 <= k < |parts| ==> sep !in parts[k]
    ensures Split(Join(parts, sep), sep) == parts
  {
    var s := Join(parts, sep);
    if |parts| == 1 {
      assert IndexOf(s, sep) == |s|;
    } else {
      var p := parts[0];
      var rest := Join(parts[1..], sep);
      assert s == p + [sep] + rest;
      FirstSeparator(p, sep, rest);
      assert s[..|p|] == p;
      assert s[|p| + 1..] == rest;
      SplitJoin(parts[1..], sep);
      assert parts == [p] + parts[1..];
    }
  }

  /** The first separator of `p + [sep] + rest` is the one after `p`. */
  lemma {:induction false} FirstSeparator(p: string, sep: char, rest: string)
    requires sep !in p
    ensures IndexOf(p + [sep] + rest, sep) == |p|
  {
    var s := p + [sep] + rest;
    if p != [] {
      assert s[0] == p[0] && s[1..] == p[1..] + [sep] + rest;
      FirstSeparator(p[1..], sep, rest);
    } else {
      assert s[0] == sep;
    }
  }

  /** `s.padStart(width, '0')`: zeros in front up to `width` characters. */
  function PadStart(s: string, width: nat): (r: string)
    ensures |r| == if |s| >= width then |s| else width
    ensures r[|r| - |s|..] == s
    ensures forall k :: 0 <= k < |r| - |s| ==> r[k] == '0'
  {
    if |s| >= width then s else seq(width - |s|, _ => '0') + s
  }

  // ---------------------------------------------------------------------------
  // Decimal numbers
  // ---------------------------------------------------------------------------

  function DigitValue(c: char): (d: nat)
    requires IsDigit(c)
    ensures d < 10
  {
    c as int - '0' as int
  }

  function DigitChar(d: nat): (c: char)
    requires d < 10
    ensures IsDigit(c) && DigitValue(c) == d
  {
    ('0' as int + d) as char
  }

  /** `parseInt(s, 10)` of an all-digit string. */
  function DigitsValue(s: string): nat
    requires AllDigits(s)
  {
    if s == [] then 0 else DigitsValue(s[..|s| - 1]) * 10 + DigitValue(s[|s| - 1])
  }

  /** A digit string in canonical form: no superfluous leading zero. */
  predicate Canonical(s: string) {
    |s| >= 1 && AllDigits(s) && (|s| > 1 ==> s[0] != '0')
  }

  /** The decimal digits of `n`, as `String(n)` prints them. */
  function Decimal(n: nat): (s: string)
    ensures Canonical(s)
  {
    if n < 10 then [DigitChar(n)]
    else
      var p := Decimal(n / 10);
      var s := p + [DigitChar(n % 10)];
      assert s[0] == p[0];
      s
  }

  /** `String(i)` for an integer. */
  function IntToString(i: int): (s: string)
    ensures |s| >= 1
    ensures i >= 0 ==> s == Decimal(i)
    ensures i < 0 ==> s[0] == '-' && s[1..] == Decimal(-i)
  {
    if i < 0 then "-" + Decimal(-i) else Decimal(i)
  }

  lemma {:induction false} DecimalRoundTrip(n: nat)
    ensures DigitsValue(Decimal(n)) == n
  {
    if n >= 10 {
      var p := Decimal(n / 10);
      var s := p + [DigitChar(n % 10)];
      assert s[..|s| - 1] == p;
      DecimalRoundTrip(n / 10);
    }
  }

  /** Zeros in front do not change the value of a digit string. */
  lemma {:induction false} LeadingZerosValue(s: string, width: nat)
    requires AllDigits(s)
    ensures AllDigits(PadStart(s, width))
    ensures DigitsValue(PadStart(s, width)) == DigitsValue(s)
    decreases |s|
  {
    var r := PadStart(s, width);
    if |s| < width {
      if s == [] {
        ZerosValue(r);
      } else {
        var s' := s[..|s| - 1];
        LeadingZerosValue(s', width - 1);
        assert r[..|r| - 1] == PadStart(s', width - 1);
      }
    }
  }

  lemma {:induction false} ZerosValue(z: string)
    requires forall k :: 0 <= k < |z| ==> z[k] == '0'
    ensures AllDigits(z) && DigitsValue(z) == 0
  {
    if z != [] {
      ZerosValue(z[..|z| - 1]);
    }
  }

  lemma {:induction false} CanonicalPositive(s: string)
    requires Canonical(s) && |s| > 1
    ensures DigitsValue(s) >= 10
  {
    var p := s[..|s| - 1];
    assert p[0] == s[0];
    if |p| > 1 {
      CanonicalPositive(p);
    } else {
      assert DigitValue(p[0]) >= 1;
      assert p[..0] == [];
    }
  }

  /** Printing the value of a canonical digit string gives the string back. */
  lemma {:induction false} CanonicalRoundTrip(s: string)
    requires Canonical(s)
    ensures Decimal(DigitsValue(s)) == s
  {
    var p := s[..|s| - 1];
    if |s| == 1 {
      assert p == [];
      assert DigitChar(DigitValue(s[0])) == s[0];
    } else {
      var n := DigitsValue(s);
      var d := DigitValue(s[|s| - 1]);
      CanonicalPositive(s);
      assert p[0] == s[0];
      assert n == DigitsValue(p) * 10 + d;
      assert n / 10 == DigitsValue(p) && n % 10 == d;
      CanonicalRoundTrip(p);
      assert DigitChar(d) == s[|s| - 1];
      assert s == p + [s[|s| - 1]];
    }
  }

  // ---------------------------------------------------------------------------
  // PHP value semantics
  // ---------------------------------------------------------------------------

  /** PHP's `empty()` on a string: the empty string and "0" are empty. */
  predicate PhpEmpty(s: string) { s == "" || s == "0" }

  /** The white space PHP skips before a numeric string. */
  predicate IsPhpNumericSpace(c: char) {
    c == ' ' || c == '\t' || c == '\n' || c == '\r' || c == '\U{B}' || c == '\U{C}'
  }

  /** Longest all-digit prefix of `s`. */
  function DigitPrefix(s: string): (d: string)
    ensures AllDigits(d) && |d| <= |s| && s[..|d|] == d
    ensures |d| < |s| ==> !IsDigit(s[|d|])
  {
    if s == [] || !IsDigit(s[0]) then [] else [s[0]] + DigitPrefix(s[1..])
  }

  /** PHP's `(int)` cast of a string: leading white space, an optional sign and
      the longest run of digits; anything else gives 0. */
  function PhpIntCast(s: string): int {
    var t := s[LeadingCount(s, IsPhpNumericSpace)..];
    var signed := |t| > 0 && (t[0] == '-' || t[0] == '+');
    var v: int := DigitsValue(DigitPrefix(if signed then t[1..] else t));
    if signed && t[0] == '-' then -v else v
  }

  /** A nonempty run of digits casts to its decimal value. */
  lemma CastOfDigits(s: string)
    requires |s| >= 1 && AllDigits(s)
    ensures PhpIntCast(s) == DigitsValue(s)
  {
    assert LeadingCount(s, IsPhpNumericSpace) == 0;
    assert s[0..] == s;
    assert DigitPrefix(s) == s;
  }

  /** `(int)` reads back every integer `String` prints, negative ones
      included. */
  lemma CastOfIntToString(i: int)
    ensures PhpIntCast(IntToString(i)) == i
  {
    var n: nat := if i < 0 then -i else i;
    var d := Decimal(n);
    DecimalRoundTrip(n);
    assert DigitPrefix(d) == d;
    if i >= 0 {
      CastOfDigits(d);
    } else {
      var s := IntToString(i);
      assert s == "-" + d;
      assert LeadingCount(s, IsPhpNumericSpace) == 0;
      assert s[0..] == s && s[1..] == d;
    }
  }

  /** A canonical decimal string survives the cast and the print back. */
  lemma CastOfCanonical(s: string)
    requires Canonical(s)
    ensures PhpIntCast(s) == DigitsValue(s)
    ensures IntToString(PhpIntCast(s)) == s
  {
    CastOfDigits(s);
    CanonicalRoundTrip(s);
  }

  /** Byte length of the UTF-8 encoding, as PHP's `strlen` counts it. */
  function Utf8Length(s: string): (n: nat)
    ensures |s| <= n <= 4 * |s|
    ensures (forall k :: 0 <= k < |s| ==> s[k] as int < 0x80) ==> n == |s|
    ensures (exists k :: 0 <= k < |s| && s[k] as int >= 0x80) ==> n > |s|
  {
    if s == [] then 0
    else
      var c := s[0] as int;
      (if c < 0x80 then 1 else if c < 0x800 then 2 else if c < 0x10000 then 3 else 4)
        + Utf8Length(s[1..])
  }
}
