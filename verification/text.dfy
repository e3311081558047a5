/** The parts of .NET's string and char library that the domain relies on:
    `char.IsWhiteSpace`, `string.IsNullOrWhiteSpace`, `Trim`, `char.IsDigit`,
    `Split(char)`, `int.TryParse`, `ToString("D4")`, ordinal ordering and
    `StartsWith`. Strings are sequences of chars. */
module Text {
  import opened Outcomes

  // ---------------------------------------------------------------------
  // Whitespace and trimming
  // ---------------------------------------------------------------------

  /** `char.IsWhiteSpace`: the Unicode White_Space characters of the BMP. */
  predicate IsWhiteSpace(c: char) {
    ('\t' <= c <= '\r') || c == ' ' || c == '\U{0085}' || c == '\U{00A0}'
    || c == '\U{1680}' || ('\U{2000}' <= c <= '\U{200A}') || c == '\U{2028}'
    || c == '\U{2029}' || c == '\U{202F}' || c == '\U{205F}' || c == '\U{3000}'
  }

  /** A (non-null) string made of whitespace only, the empty string included. */
  predicate IsBlank(s: string) {
    forall i | 0 <= i < |s| :: IsWhiteSpace(s[i])
  }

  /** `string.IsNullOrWhiteSpace`. */
  predicate IsNullOrWhiteSpace(s: Option<string>) {
    s.None? || IsBlank(s.value)
  }

  /** Number of leading characters of `s` satisfying `p`. */
  function LeadingCount(s: string, p: char -> bool): (k: nat)
    ensures k <= |s|
    ensures forall i | 0 <= i < k :: p(s[i])
    ensures k < |s| ==> !p(s[k])
  {
    if |s| > 0 && p(s[0]) then 1 + LeadingCount(s[1..], p) else 0
  }

  /** Number of trailing characters of `s` satisfying `p`. */
  function TrailingCount(s: string, p: char -> bool): (k: nat)
    ensures k <= |s|
    ensures forall i | |s| - k <= i < |s| :: p(s[i])
    ensures k < |s| ==> !p(s[|s| - 1 - k])
  {
    if |s| > 0 && p(s[|s| - 1]) then 1 + TrailingCount(s[..|s| - 1], p) else 0
  }

  /** Removes the leading and trailing characters that satisfy `p`. */
  function TrimBy(s: string, p: char -> bool): (r: string)
    ensures LeadingCount(s, p) + |r| <= |s|
    ensures r == s[LeadingCount(s, p) .. LeadingCount(s, p) + |r|]
    ensures forall i | LeadingCount(s, p) + |r| <= i < |s| :: p(s[i])
    ensures |r| > 0 ==> !p(r[0]) && !p(r[|r| - 1])
    ensures (forall i | 0 <= i < |s| :: p(s[i])) <==> |r| == 0
  {
    var a := LeadingCount(s, p);
    var u := s[a..];
    var r := u[..|u| - TrailingCount(u, p)];
    TrimByFacts(s, p, a, u, r);
    r
  }

  lemma TrimByFacts(s: string, p: char -> bool, a: nat, u: string, r: string)
    requires a == LeadingCount(s, p) && u == s[a..] && r == u[..|u| - TrailingCount(u, p)]
    ensures a + |r| <= |s| && r == s[a .. a + |r|]
    ensures forall i | a + |r| <= i < |s| :: p(s[i])
    ensures |r| > 0 ==> !p(r[0]) && !p(r[|r| - 1])
    ensures (forall i | 0 <= i < |s| :: p(s[i])) <==> |r| == 0
  {
    SliceOfSuffix(s, a, |u| - TrailingCount(u, p));
    TrimByTail(s, p, a, u, r);
    TrimByEnds(s, p, a, u, r);
    TrimByAll(s, p, a, u, r);
  }

  /** A prefix of a suffix is a slice. */
  lemma SliceOfSuffix<T>(s: seq<T>, a: nat, n: nat)
    requires a + n <= |s|
    ensures s[a..][..n] == s[a .. a + n]
  {
  }

  lemma TrimByTail(s: string, p: char -> bool, a: nat, u: string, r: string)
    requires a == LeadingCount(s, p) && u == s[a..] && r == u[..|u| - TrailingCount(u, p)]
    ensures forall i | a + |r| <= i < |s| :: p(s[i])
  {
    var k := TrailingCount(u, p);
    assert |r| == |u| - k;
    forall i | a + |r| <= i < |s|
      ensures p(s[i])
    {
      var j := i - a;
      assert |u| - k <= j < |u|;
      assert p(u[j]);
      assert s[i] == u[j];
    }
  }

  lemma TrimByEnds(s: string, p: char -> bool, a: nat, u: string, r: string)
    requires a == LeadingCount(s, p) && u == s[a..] && r == u[..|u| - TrailingCount(u, p)]
    ensures |r| > 0 ==> !p(r[0]) && !p(r[|r| - 1])
  {
    if |r| > 0 {
      assert r[0] == u[0];
      assert r[|r| - 1] == u[|u| - 1 - TrailingCount(u, p)];
    }
  }

  lemma TrimByAll(s: string, p: char -> bool, a: nat, u: string, r: string)
    requires a == LeadingCount(s, p) && u == s[a..] && r == u[..|u| - TrailingCount(u, p)]
    ensures (forall i | 0 <= i < |s| :: p(s[i])) <==> |r| == 0
  {
    if |r| == 0 {
      TrimByTail(s, p, a, u, r);
    }
  }

  /** `String.Trim()`. */
  function Trim(s: string): (r: string)
    ensures |r| <= |s|
    ensures IsBlank(s) <==> r == []
    ensures |r| > 0 ==> !IsWhiteSpace(r[0]) && !IsWhiteSpace(r[|r| - 1])
  {
    TrimBy(s, IsWhiteSpace)
  }

  /** A string that does not start or end with the trimmed characters is
      left as it is. */
  lemma TrimByClean(s: string, p: char -> bool)
    requires |s| > 0 ==> !p(s[0]) && !p(s[|s| - 1])
    ensures TrimBy(s, p) == s
  {
    var a := LeadingCount(s, p);
    assert a == 0;
    var b := TrailingCount(s[a..], p);
    assert s[a..] == s;
    assert b == 0;
  }

  /** Trimming twice is trimming once. */
  lemma TrimIdempotent(s: string)
    ensures Trim(Trim(s)) == Trim(s)
  {
    TrimByClean(Trim(s), IsWhiteSpace);
  }

  /** `null?.Trim() ?? string.Empty`. */
  function TrimOrEmpty(s: Option<string>): string {
    if s.None? then "" else Trim(s.value)
  }

  // ---------------------------------------------------------------------
  // Digits
  // ---------------------------------------------------------------------

  predicate IsAsciiDigit(c: char) {
    '0' <= c <= '9'
  }

  predicate AllAsciiDigits(s: string) {
    forall i | 0 <= i < |s| :: IsAsciiDigit(s[i])
  }

  /** `char.IsDigit`: Unicode category Nd. A C# `char` is a UTF-16 code unit,
      so only the decimal-digit blocks of the BMP can ever satisfy it. */
  predicate IsDigit(c: char) {
    var k := c as int;
    IsAsciiDigit(c)
    || (0x0660 <= k <= 0x0669) || (0x06F0 <= k <= 0x06F9) || (0x07C0 <= k <= 0x07C9)
    || (0x0966 <= k <= 0x096F) || (0x09E6 <= k <= 0x09EF) || (0x0A66 <= k <= 0x0A6F)
    || (0x0AE6 <= k <= 0x0AEF) || (0x0B66 <= k <= 0x0B6F) || (0x0BE6 <= k <= 0x0BEF)
    || (0x0C66 <= k <= 0x0C6F) || (0x0CE6 <= k <= 0x0CEF) || (0x0D66 <= k <= 0x0D6F)
    || (0x0DE6 <= k <= 0x0DEF) || (0x0E50 <= k <= 0x0E59) || (0x0ED0 <= k <= 0x0ED9)
    || (0x0F20 <= k <= 0x0F29) || (0x1040 <= k <= 0x1049) || (0x1090 <= k <= 0x1099)
    || (0x17E0 <= k <= 0x17E9) || (0x1810 <= k <= 0x1819) || (0x1946 <= k <= 0x194F)
    || (0x19D0 <= k <= 0x19D9) || (0x1A80 <= k <= 0x1A89) || (0x1A90 <= k <= 0x1A99)
    || (0x1B50 <= k <= 0x1B59) || (0x1BB0 <= k <= 0x1BB9) || (0x1C40 <= k <= 0x1C49)
    || (0x1C50 <= k <= 0x1C59) || (0xA620 <= k <= 0xA629) || (0xA8D0 <= k <= 0xA8D9)
    || (0xA900 <= k <= 0xA909) || (0xA9D0 <= k <= 0xA9D9) || (0xA9F0 <= k <= 0xA9F9)
    || (0xAA50 <= k <= 0xAA59) || (0xABF0 <= k <= 0xABF9) || (0xFF10 <= k <= 0xFF19)
  }

  function DigitValue(c: char): nat
    requires IsAsciiDigit(c)
  {
    c as int - '0' as int
  }

  function DigitChar(d: nat): (c: char)
    requires d < 10
    ensures IsAsciiDigit(c) && DigitValue(c) == d
  {
    ('0' as int + d) as char
  }

  function Pow10(n: nat): (p: nat)
    ensures p >= 1
  {
    if n == 0 then 1 else 10 * Pow10(n - 1)
  }

  /** The value of a decimal numeral, most significant digit first. */
  function DigitsValue(s: string): (v: nat)
    requires AllAsciiDigits(s)
    ensures v < Pow10(|s|)
  {
    if |s| == 0 then 0
    else
      var rest := DigitsValue(s[1..]);
      DigitStep(DigitValue(s[0]), Pow10(|s| - 1), rest);
      DigitValue(s[0]) * Pow10(|s| - 1) + rest
  }

  /** One more digit in front keeps a numeral below the next power of ten. */
  lemma DigitStep(d: nat, p: nat, rest: nat)
    requires d < 10 && rest < p
    ensures d * p + rest < 10 * p
  {
    assert d * p <= 9 * p by { MulLe(d, 9, p); }
  }

  lemma PrependDigit(d: nat, tail: string)
    requires d < 10 && AllAsciiDigits(tail)
    ensures AllAsciiDigits([DigitChar(d)] + tail)
    ensures DigitsValue([DigitChar(d)] + tail) == d * Pow10(|tail|) + DigitsValue(tail)
  {
    var r := [DigitChar(d)] + tail;
    assert r[1..] == tail;
  }

  lemma DivMod(n: nat, p: nat)
    requires p > 0
    ensures (n / p) * p + n % p == n
  {
  }

  /** A smaller leading digit makes a smaller numeral, whatever follows. */
  lemma LeadingDigitDecides(da: nat, db: nat, p: nat, ra: nat, rb: nat)
    requires da < db && ra < p && rb < p
    ensures da * p + ra < db * p + rb
  {
    MulLe(da + 1, db, p);
  }

  lemma MulLe(a: nat, b: nat, p: nat)
    requires a <= b
    ensures a * p <= b * p
  {
  }

  /** `n.ToString("D<w>")` for a number that fits in `w` digits. */
  function PadDigits(n: nat, w: nat): (r: string)
    requires n < Pow10(w)
    ensures |r| == w && AllAsciiDigits(r)
    ensures DigitsValue(r) == n
  {
    if w == 0 then ""
    else
      var p := Pow10(w - 1);
      var dm := PadStep(n, p);
      var tail := PadDigits(dm.1, w - 1);
      PrependDigit(dm.0, tail);
      [DigitChar(dm.0)] + tail
  }

  /** Splitting off the leading digit of a number below `10 * p`. */
  function PadStep(n: nat, p: nat): (dm: (nat, nat))
    requires p > 0 && n < 10 * p
    ensures dm.0 < 10 && dm.1 < p
    ensures dm.0 * p + dm.1 == n
  {
    DivMod(n, p);
    assert n / p < 10 by {
      if n / p >= 10 {
        MulLe(10, n / p, p);
        assert false;
      }
    }
    (n / p, n % p)
  }

  // ---------------------------------------------------------------------
  // Splitting
  // ---------------------------------------------------------------------

  /** The inverse of `Split`: the parts glued back with the separator. */
  function Join(parts: seq<string>, sep: char): string
    requires |parts| >= 1
  {
    if |parts| == 1 then parts[0] else parts[0] + [sep] + Join(parts[1..], sep)
  }

  /** `s.Split(sep)`: cuts at every separator, keeping empty parts. */
  function Split(s: string, sep: char): (parts: seq<string>)
    ensures |parts| >= 1
    ensures forall i | 0 <= i < |parts| :: sep !in parts[i]
    ensures Join(parts, sep) == s
  {
    if |s| == 0 then [""]
    else
      var rest := Split(s[1..], sep);
      if s[0] == sep then
        var parts := [""] + rest;
        assert parts[1..] == rest;
        parts
      else
        var parts := [[s[0]] + rest[0]] + rest[1..];
        assert Join(parts, sep) == s by {
          if |rest| == 1 {
            assert s == [s[0]] + s[1..];
          } else {
            assert parts[1..] == rest[1..];
            assert s == [s[0]] + s[1..];
          }
        }
        parts
  }

  /** A string without separators is a single part. */
  lemma {:induction false} SplitNoSeparator(s: string, sep: char)
    requires sep !in s
    ensures Split(s, sep) == [s]
  {
    if |s| > 0 {
      SplitNoSeparator(s[1..], sep);
      assert [s[0]] + s[1..] == s;
    }
  }

  /** A string with exactly one separator splits into the two sides. */
  lemma {:induction false} SplitTwo(a: string, b: string, sep: char)
    requires sep !in a && sep !in b
    ensures Split(a + [sep] + b, sep) == [a, b]
  {
    var s := a + [sep] + b;
    if |a| == 0 {
      assert s[1..] == b;
      SplitNoSeparator(b, sep);
    } else {
      assert s[1..] == a[1..] + [sep] + b;
      SplitTwo(a[1..], b, sep);
      assert [a[0]] + a[1..] == a;
    }
  }

  // ---------------------------------------------------------------------
  // Integer parsing
  // ---------------------------------------------------------------------

  const MinInt32: int := -0x8000_0000
  const MaxInt32: int := 0x7FFF_FFFF
  const Dos32: int := 0x1_0000_0000

  /** `a + b` on two `int`s in C#'s default unchecked context. */
  function SumaInt32(a: int, b: int): (r: int)
    requires MinInt32 <= a <= MaxInt32 && MinInt32 <= b <= MaxInt32
    ensures MinInt32 <= r <= MaxInt32
    ensures (r - (a + b)) % Dos32 == 0
    ensures MinInt32 <= a + b <= MaxInt32 ==> r == a + b
  {
    var s := a + b;
    if s > MaxInt32 then s - Dos32
    else if s < MinInt32 then s + Dos32
    else s
  }

  /** The whitespace `int.TryParse` skips around a number: U+0009..U+000D
      and the space. */
  predicate IsNumberWhite(c: char) {
    c == ' ' || '\t' <= c <= '\r'
  }

  /** `int.TryParse(s, out v)` with the default `NumberStyles.Integer` and
      the invariant culture's sign strings: optional whitespace, an optional
      sign, at least one ASCII digit, optional whitespace, then any number
      of NUL characters (which .NET ignores at the end of a number), and a
      value within the 32-bit range. */
  function TryParseInt32(s: string): (r: Option<int>)
    ensures r.Some? ==> MinInt32 <= r.value <= MaxInt32
    ensures r.Some? ==> exists i | 0 <= i < |s| :: IsAsciiDigit(s[i])
  {
    var u := SinNulosFinales(s);
    var r := ParseNumero(u);
    assert r.Some? ==> exists i | 0 <= i < |s| :: IsAsciiDigit(s[i]) by {
      if r.Some? {
        var i :| 0 <= i < |u| && IsAsciiDigit(u[i]);
        assert s[i] == u[i];
      }
    }
    r
  }

  /** The number itself once the trailing NULs are gone. */
  function ParseNumero(u: string): (r: Option<int>)
    ensures r.Some? ==> MinInt32 <= r.value <= MaxInt32
    ensures r.Some? ==> exists i | 0 <= i < |u| :: IsAsciiDigit(u[i])
  {
    var t := TrimBy(u, IsNumberWhite);
    if |t| == 0 then None
    else
      var signed := t[0] == '-' || t[0] == '+';
      var body := if signed then t[1..] else t;
      if |body| == 0 || !AllAsciiDigits(body) then None
      else
        var v: int := if t[0] == '-' then 0 - DigitsValue(body) else DigitsValue(body);
        if MinInt32 <= v <= MaxInt32 then
          var a := LeadingCount(u, IsNumberWhite);
          var j := if signed then 1 else 0;
          assert t[j] == u[a + j] && IsAsciiDigit(t[j]);
          Some(v)
        else None
  }

  predicate IsNul(c: char) {
    c == '\0'
  }

  /** `s` without its trailing NUL characters. */
  function SinNulosFinales(s: string): (u: string)
    ensures |u| <= |s| && u == s[..|u|]
    ensures forall i | |u| <= i < |s| :: IsNul(s[i])
    ensures |u| > 0 ==> !IsNul(u[|u| - 1])
  {
    s[..|s| - TrailingCount(s, IsNul)]
  }

  /** A NUL at the end of the text never changes what it parses to. */
  lemma NulFinalIgnorado(s: string)
    ensures TryParseInt32(s + ['\0']) == TryParseInt32(s)
  {
    var t := s + ['\0'];
    assert t[..|t| - 1] == s;
    assert TrailingCount(t, IsNul) == 1 + TrailingCount(s, IsNul);
    assert SinNulosFinales(t) == SinNulosFinales(s) by {
      assert t[..|s| - TrailingCount(s, IsNul)] == s[..|s| - TrailingCount(s, IsNul)];
    }
  }

  /** Every character of a string `int.TryParse` accepts is whitespace, a
      sign, a digit or a NUL, so its UTF-16 length is its character count. */
  lemma ParseSoloBmp(s: string)
    requires TryParseInt32(s).Some?
    ensures Utf16Length(s) == |s|
  {
    var u := SinNulosFinales(s);
    var t := TrimBy(u, IsNumberWhite);
    var a := LeadingCount(u, IsNumberWhite);
    var signed := t[0] == '-' || t[0] == '+';
    var body := if signed then t[1..] else t;
    assert AllAsciiDigits(body);
    forall j | 0 <= j < |t|
      ensures EnBmp(t[j])
    {
      if signed && j > 0 {
        assert t[j] == body[j - 1];
      } else if !signed {
        assert t[j] == body[j];
      }
    }
    forall i | 0 <= i < |s|
      ensures EnBmp(s[i])
    {
      if i < |u| {
        assert s[i] == u[i];
        if a <= i < a + |t| {
          assert u[i] == t[i - a];
        }
      }
    }
    Utf16LengthBmp(s);
  }

  /** A non-empty numeral of ASCII digits within range parses to its value. */
  lemma DigitsParse(s: string)
    requires |s| > 0 && AllAsciiDigits(s) && DigitsValue(s) <= MaxInt32
    ensures TryParseInt32(s) == Some(DigitsValue(s))
  {
    assert IsAsciiDigit(s[0]) && IsAsciiDigit(s[|s| - 1]);
    assert SinNulosFinales(s) == s by {
      assert TrailingCount(s, IsNul) == 0;
    }
    TrimByClean(s, IsNumberWhite);
    assert TrimBy(s, IsNumberWhite) == s && s[0] != '-' && s[0] != '+';
    assert ParseNumero(s) == Some(DigitsValue(s));
  }

  /** Every numeral of at most nine ASCII digits parses. */
  lemma ShortDigitsParse(s: string)
    requires 0 < |s| <= 9 && AllAsciiDigits(s)
    ensures TryParseInt32(s) == Some(DigitsValue(s))
  {
    Pow10Monotone(|s|, 9);
    DigitsParse(s);
  }

  lemma {:induction false} Pow10Monotone(m: nat, n: nat)
    requires m <= n
    ensures Pow10(m) <= Pow10(n)
  {
    if m < n {
      Pow10Monotone(m, n - 1);
    }
  }

  // ---------------------------------------------------------------------
  // Ordinal comparison and prefixes
  // ---------------------------------------------------------------------

  /** Ordinal (code point by code point) `a <= b`. */
  predicate LexLe(a: string, b: string) {
    |a| == 0 || (|b| > 0 && (a[0] < b[0] || (a[0] == b[0] && LexLe(a[1..], b[1..]))))
  }

  lemma {:induction false} LexLeTotal(a: string, b: string)
    ensures LexLe(a, b) || LexLe(b, a)
  {
    if |a| > 0 && |b| > 0 && a[0] == b[0] {
      LexLeTotal(a[1..], b[1..]);
    }
  }

  lemma {:induction false} LexLeTransitive(a: string, b: string, c: string)
    requires LexLe(a, b) && LexLe(b, c)
    ensures LexLe(a, c)
  {
    if |a| > 0 && a[0] == b[0] && b[0] == c[0] {
      LexLeTransitive(a[1..], b[1..], c[1..]);
    }
  }

  /** A common prefix does not change the order. */
  lemma {:induction false} LexLeCommonPrefix(p: string, a: string, b: string)
    ensures LexLe(p + a, p + b) <==> LexLe(a, b)
  {
    if |p| > 0 {
      assert (p + a)[1..] == p[1..] + a;
      assert (p + b)[1..] == p[1..] + b;
      LexLeCommonPrefix(p[1..], a, b);
    } else {
      assert p + a == a && p + b == b;
    }
  }

  /** On numerals of equal length, ordinal order is numeric order. */
  lemma {:induction false} LexLeDigits(a: string, b: string)
    requires |a| == |b| && AllAsciiDigits(a) && AllAsciiDigits(b)
    ensures LexLe(a, b) <==> DigitsValue(a) <= DigitsValue(b)
  {
    if |a| > 0 {
      LexLeDigits(a[1..], b[1..]);
      DigitOrder(DigitValue(a[0]), DigitValue(b[0]), Pow10(|a| - 1), DigitsValue(a[1..]), DigitsValue(b[1..]));
    }
  }

  /** A leading digit outweighs everything after it. */
  lemma DigitOrder(da: nat, db: nat, p: nat, ra: nat, rb: nat)
    requires ra < p && rb < p
    ensures da * p + ra <= db * p + rb <==> da < db || (da == db && ra <= rb)
  {
    if da < db {
      LeadingDigitDecides(da, db, p, ra, rb);
    } else if db < da {
      LeadingDigitDecides(db, da, p, rb, ra);
    }
  }

  predicate StartsWith(s: string, prefix: string) {
    |prefix| <= |s| && s[..|prefix|] == prefix
  }

  // ---------------------------------------------------------------------
  // UTF-16
  // ---------------------------------------------------------------------

  /** A UTF-16 code unit: what a C# `char` holds. */
  type CodeUnit = x: int | 0 <= x < 0x1_0000

  /** A character of the Basic Multilingual Plane, one code unit long. */
  predicate EnBmp(c: char) {
    c as int < 0x1_0000
  }

  /** The UTF-16 encoding of a string: a BMP character is its own code
      unit, any other character becomes a surrogate pair. */
  function Utf16(s: string): (u: seq<CodeUnit>)
    ensures |s| <= |u| <= 2 * |s|
    decreases |s|
  {
    if |s| == 0 then [] else Unidades(s[0]) + Utf16(s[1..])
  }

  /** The code units of one character. */
  function Unidades(c: char): (u: seq<CodeUnit>)
    ensures |u| == if EnBmp(c) then 1 else 2
  {
    var k := c as int;
    if k < 0x1_0000 then [k]
    else [0xD800 + (k - 0x1_0000) / 0x400, 0xDC00 + (k - 0x1_0000) % 0x400]
  }

  /** `string.Length`: the number of UTF-16 code units. */
  function Utf16Length(s: string): (n: nat)
    ensures |s| <= n <= 2 * |s|
  {
    |Utf16(s)|
  }

  /** The UTF-16 length is the character count exactly when every
      character lies in the BMP. */
  lemma {:induction false} Utf16LengthBmp(s: string)
    ensures Utf16Length(s) == |s| <==> forall i | 0 <= i < |s| :: EnBmp(s[i])
    decreases |s|
  {
    if |s| > 0 {
      Utf16LengthBmp(s[1..]);
      assert forall i | 1 <= i < |s| :: s[i] == s[1..][i - 1];
    }
  }

  /** A string of characters outside the BMP is twice as long in code
      units as in characters. */
  lemma {:induction false} Utf16LengthFueraBmp(s: string)
    requires forall i | 0 <= i < |s| :: !EnBmp(s[i])
    ensures Utf16Length(s) == 2 * |s|
    decreases |s|
  {
    if |s| > 0 {
      assert forall i | 0 <= i < |s| - 1 :: s[1..][i] == s[i + 1];
      Utf16LengthFueraBmp(s[1..]);
    }
  }

  /** Encoding distributes over concatenation. */
  lemma {:induction false} Utf16Concat(a: string, b: string)
    ensures Utf16(a + b) == Utf16(a) + Utf16(b)
    decreases |a|
  {
    if |a| > 0 {
      assert (a + b)[1..] == a[1..] + b;
      Utf16Concat(a[1..], b);
    } else {
      assert a + b == b;
    }
  }

  /** A slice is never longer, in code units, than the whole. */
  lemma Utf16LengthSlice(s: string, i: nat, j: nat)
    requires i <= j <= |s|
    ensures Utf16Length(s[i..j]) <= Utf16Length(s)
  {
    assert s == s[..i] + s[i..j] + s[j..];
    Utf16Concat(s[..i] + s[i..j], s[j..]);
    Utf16Concat(s[..i], s[i..j]);
  }

  /** Trimming never lengthens a string. */
  lemma TrimUtf16Length(s: string)
    ensures Utf16Length(Trim(s)) <= Utf16Length(s)
  {
    var r := TrimBy(s, IsWhiteSpace);
    var a := LeadingCount(s, IsWhiteSpace);
    assert a + |r| <= |s| && r == s[a .. a + |r|];
    Utf16LengthSlice(s, a, a + |r|);
  }

  /** The space character as a code unit. */
  const Espacio: CodeUnit := 0x20

  /** `new string(' ', n)` as code units. */
  function EspaciosUtf16(n: nat): (r: seq<CodeUnit>)
    ensures |r| == n && forall i | 0 <= i < n :: r[i] == Espacio
  {
    seq(n, _ => Espacio)
  }
}
