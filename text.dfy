/**
 * The string primitives of .NET that the hub's ATC decoder and score display
 * rely on: `string.Split` on a one-character separator, `int.TryParse` with the
 * default integer style, and the custom numeric formats "00" and "000".
 */
module Text {
  import opened Common

  // ---------------------------------------------------------------------------
  // Splitting and joining on a separator character
  // ---------------------------------------------------------------------------

  /** `s.Split(sep)`: every occurrence of `sep` separates two tokens; empty tokens are kept. */
  function Split(s: string, sep: char): (r: seq<string>)
    ensures |r| >= 1
    ensures forall i :: 0 <= i < |r| ==> sep !in r[i]
    decreases |s|
  {
    if |s| == 0 then [""]
    else
      var rest := Split(s[1..], sep);
      if s[0] == sep then [""] + rest
      else [[s[0]] + rest[0]] + rest[1..]
  }

  /** `string.Join(sep, tokens)`. */
  function Join(tokens: seq<string>, sep: char): string
    requires |tokens| >= 1
    decreases |tokens|
  {
    if |tokens| == 1 then tokens[0] else tokens[0] + [sep] + Join(tokens[1..], sep)
  }

  predicate SeparatorFree(tokens: seq<string>, sep: char) {
    forall i :: 0 <= i < |tokens| ==> sep !in tokens[i]
  }

  /** Joining the tokens of a split gives back the original string. */
  lemma {:induction false} JoinSplit(s: string, sep: char)
    ensures Join(Split(s, sep), sep) == s
    decreases |s|
  {
    if |s| > 0 {
      var rest := Split(s[1..], sep);
      JoinSplit(s[1..], sep);
      if s[0] == sep {
        assert Split(s, sep) == [""] + rest;
        assert ([""] + rest)[1..] == rest;
        assert s == [sep] + s[1..];
      } else if |rest| == 1 {
        assert Split(s, sep) == [[s[0]] + rest[0]];
        assert s == [s[0]] + s[1..];
      } else {
        var r := Split(s, sep);
        assert r == [[s[0]] + rest[0]] + rest[1..];
        assert r[1..] == rest[1..];
        calc {
          Join(r, sep);
          r[0] + [sep] + Join(r[1..], sep);
          [s[0]] + (rest[0] + [sep] + Join(rest[1..], sep));
          [s[0]] + Join(rest, sep);
          s;
        }
      }
    }
  }

  /** Splitting a separator-free prefix glued to the rest extends the first token of the rest. */
  lemma {:induction false} SplitFreePrefix(a: string, b: string, sep: char)
    requires sep !in a
    ensures Split(a + b, sep) == [a + Split(b, sep)[0]] + Split(b, sep)[1..]
    decreases |a|
  {
    if |a| > 0 {
      var r := Split(b, sep);
      var r' := Split(a[1..] + b, sep);
      assert (a + b)[0] == a[0] != sep;
      assert (a + b)[1..] == a[1..] + b;
      SplitFreePrefix(a[1..], b, sep);
      assert r'[0] == a[1..] + r[0] && r'[1..] == r[1..];
      assert Split(a + b, sep) == [[a[0]] + r'[0]] + r'[1..];
      assert [a[0]] + (a[1..] + r[0]) == a + r[0];
    } else {
      var r := Split(b, sep);
      assert a + b == b;
      assert a + r[0] == r[0];
      assert r == [r[0]] + r[1..];
    }
  }

  /** Splitting a join of separator-free tokens gives back the tokens. */
  lemma {:induction false} SplitJoin(tokens: seq<string>, sep: char)
    requires |tokens| >= 1
    requires SeparatorFree(tokens, sep)
    ensures Split(Join(tokens, sep), sep) == tokens
    decreases |tokens|
  {
    var t := tokens[0];
    if |tokens| == 1 {
      SplitFreePrefix(t, "", sep);
      assert t + "" == t;
    } else {
      var rest := tokens[1..];
      assert SeparatorFree(rest, sep) by {
        forall i | 0 <= i < |rest| ensures sep !in rest[i] { assert rest[i] == tokens[i + 1]; }
      }
      SplitJoin(rest, sep);
      var b := Join(rest, sep);
      assert Join(tokens, sep) == t + ([sep] + b);
      SplitFreePrefix(t, [sep] + b, sep);
      assert ([sep] + b)[1..] == b;
      assert Split([sep] + b, sep) == [""] + rest;
      assert ([""] + rest)[1..] == rest;
      assert t + "" == t;
      assert [t] + rest == tokens;
    }
  }

  // ---------------------------------------------------------------------------
  // Searching
  // ---------------------------------------------------------------------------

  predicate StartsWith(s: string, prefix: string) {
    |prefix| <= |s| && s[..|prefix|] == prefix
  }

  /**
   * `s.EndsWith(suffix)` as an ordinal comparison; the culture-sensitive
   * comparison .NET performs differs from it only on ignorable characters.
   */
  predicate EndsWith(s: string, suffix: string) {
    |suffix| <= |s| && s[|s| - |suffix|..] == suffix
  }

  /** Ordinal `s.Contains(part)`. */
  predicate Contains(s: string, part: string)
    decreases |s|
  {
    StartsWith(s, part) || (|s| > 0 && Contains(s[1..], part))
  }

  // ---------------------------------------------------------------------------
  // UTF-16 code units
  // ---------------------------------------------------------------------------

  /**
   * The UTF-16 code units a .NET string stores for `s`: one per character of
   * the Basic Multilingual Plane, and a high then a low surrogate for any
   * other character. `Length` and index ranges count these units.
   */
  function CodeUnits(s: string): (u: seq<int>)
    ensures |s| <= |u| <= 2 * |s|
    ensures |s| > 0 && (s[0] as int) < 0x1_0000 ==> u[0] == s[0] as int
    ensures |s| > 0 && (s[0] as int) >= 0x1_0000 ==>
      |u| >= 2 && 0xD800 <= u[0] < 0xDC00 && 0xDC00 <= u[1] < 0xE000
    decreases |s|
  {
    if |s| == 0 then []
    else
      var c := s[0] as int;
      (if c < 0x1_0000 then [c] else [0xD800 + (c - 0x1_0000) / 0x400, 0xDC00 + (c - 0x1_0000) % 0x400])
      + CodeUnits(s[1..])
  }

  predicate Ascii(p: string) { forall i :: 0 <= i < |p| ==> (p[i] as int) < 0x80 }

  /**
   * Comparing the first code units of `s` with an ASCII `p` is comparing the
   * first characters, and the code units after that prefix are those of the
   * rest of `s`.
   */
  lemma {:induction false} AsciiPrefixUnits(s: string, p: string)
    requires Ascii(p) && |p| <= |CodeUnits(s)|
    ensures CodeUnits(s)[..|p|] == CodeUnits(p) <==> StartsWith(s, p)
    ensures StartsWith(s, p) ==> CodeUnits(s)[|p|..] == CodeUnits(s[|p|..])
    decreases |p|
  {
    if |p| == 0 {
      assert s[..0] == p;
    } else {
      var c := s[0] as int;
      assert Ascii(p[1..]) by {
        forall i | 0 <= i < |p[1..]| ensures (p[1..][i] as int) < 0x80 { assert p[1..][i] == p[i + 1]; }
      }
      StartsWithFirst(s, p);
      AsciiUnits(p[1..]);
      assert CodeUnits(p) == [p[0] as int] + CodeUnits(p[1..]);
      if c < 0x1_0000 {
        assert CodeUnits(s) == [c] + CodeUnits(s[1..]);
        AsciiPrefixUnits(s[1..], p[1..]);
        PrefixOfCons(c, CodeUnits(s[1..]), p[0] as int, CodeUnits(p[1..]));
      } else {
        assert CodeUnits(s)[..|p|][0] != CodeUnits(p)[0];
      }
    }
  }

  /** A non-empty prefix matches when its first character does and the rest matches the rest. */
  lemma StartsWithFirst(s: string, p: string)
    requires |s| > 0 && |p| > 0
    ensures StartsWith(s, p) <==> s[0] == p[0] && StartsWith(s[1..], p[1..])
    ensures StartsWith(s, p) ==> s[|p|..] == s[1..][|p| - 1..]
  {
    if |p| <= |s| {
      assert s[..|p|] == [s[0]] + s[1..][..|p| - 1];
      assert p == [p[0]] + p[1..];
    }
  }

  lemma PrefixOfCons(c: int, a: seq<int>, d: int, b: seq<int>)
    requires |b| <= |a|
    ensures ([c] + a)[..|b| + 1] == [d] + b <==> c == d && a[..|b|] == b
    ensures ([c] + a)[|b| + 1..] == a[|b|..]
  {
    var x := [c] + a[..|b|];
    assert ([c] + a)[..|b| + 1] == x;
    assert x[0] == c && x[1..] == a[..|b|];
    assert ([d] + b)[0] == d && ([d] + b)[1..] == b;
  }

  /** An ASCII string has one code unit per character. */
  lemma {:induction false} AsciiUnits(p: string)
    requires Ascii(p)
    ensures |CodeUnits(p)| == |p|
    decreases |p|
  {
    if |p| > 0 {
      assert Ascii(p[1..]) by {
        forall i | 0 <= i < |p[1..]| ensures (p[1..][i] as int) < 0x80 { assert p[1..][i] == p[i + 1]; }
      }
      AsciiUnits(p[1..]);
    }
  }

  // ---------------------------------------------------------------------------
  // Decimal digits
  // ---------------------------------------------------------------------------

  predicate IsDigit(c: char) { '0' <= c <= '9' }

  predicate AllDigits(s: string) { forall i :: 0 <= i < |s| ==> IsDigit(s[i]) }

  /** The number a string of decimal digits denotes (most significant digit first). */
  function DigitsValue(s: string): nat
    requires AllDigits(s)
    decreases |s|
  {
    if |s| == 0 then 0 else DigitsValue(s[..|s| - 1]) * 10 + (s[|s| - 1] as int - '0' as int)
  }

  function DigitChar(d: nat): char
    requires d < 10
  {
    ('0' as int + d) as char
  }

  /** The shortest decimal representation of a natural number. */
  function ShowNat(n: nat): string
    decreases n
  {
    if n < 10 then [DigitChar(n)] else ShowNat(n / 10) + [DigitChar(n % 10)]
  }

  /** `n.ToString()` for an integer in the invariant culture. */
  function ShowInt(n: int): string {
    if n < 0 then "-" + ShowNat(-n) else ShowNat(n)
  }

  lemma {:induction false} ShowNatDigits(n: nat)
    ensures |ShowNat(n)| >= 1 && AllDigits(ShowNat(n))
    ensures DigitsValue(ShowNat(n)) == n
    decreases n
  {
    if n >= 10 {
      ShowNatDigits(n / 10);
      var s := ShowNat(n);
      assert s[..|s| - 1] == ShowNat(n / 10);
    }
  }

  /** A natural number below 10^k is shown with at most k digits. */
  lemma {:induction false} ShowNatLength(n: nat, k: nat, bound: nat)
    requires bound == Pow10(k) && n < bound && k >= 1
    ensures |ShowNat(n)| <= k
    decreases k
  {
    if n >= 10 {
      assert Pow10(k) == 10 * Pow10(k - 1);
      ShowNatLength(n / 10, k - 1, Pow10(k - 1));
    }
  }

  function Pow10(k: nat): nat {
    if k == 0 then 1 else 10 * Pow10(k - 1)
  }

  // ---------------------------------------------------------------------------
  // int.TryParse(string, out int) with NumberStyles.Integer
  // ---------------------------------------------------------------------------

  const Int32Min: int := -0x8000_0000
  const Int32Max: int := 0x7fff_ffff

  /** The white space NumberStyles.Integer allows around a number: U+0009 to U+000D and U+0020. */
  predicate IsWhite(c: char) { c == ' ' || '\t' <= c <= '\r' }

  function TrimStart(s: string): (r: string)
    ensures |r| <= |s| && r == s[|s| - |r|..]
    ensures |r| > 0 ==> !IsWhite(r[0])
    decreases |s|
  {
    if |s| > 0 && IsWhite(s[0]) then TrimStart(s[1..]) else s
  }

  function TrimEnd(s: string): (r: string)
    ensures |r| <= |s| && r == s[..|r|]
    ensures |r| > 0 ==> !IsWhite(r[|r| - 1])
    decreases |s|
  {
    if |s| > 0 && IsWhite(s[|s| - 1]) then TrimEnd(s[..|s| - 1]) else s
  }

  /**
   * `int.TryParse(s, out n)`: optional white space, an optional '+' or '-', one
   * or more decimal digits, optional white space, and a value in the 32-bit range.
   * None is the `false` return (the out value is then 0).
   */
  function ParseInt32(s: string): (r: Option<int>)
    ensures r.Some? ==> Int32Min <= r.value <= Int32Max
  {
    ParseTrimmed(TrimEnd(TrimStart(s)))
  }

  /** `int.TryParse` once the surrounding white space is trimmed. */
  function ParseTrimmed(t: string): (r: Option<int>)
    ensures r.Some? ==> Int32Min <= r.value <= Int32Max
  {
    var signed := |t| > 0 && (t[0] == '-' || t[0] == '+');
    var digits := if signed then t[1..] else t;
    if |digits| == 0 || !AllDigits(digits) then None
    else
      var v: int := DigitsValue(digits);
      var n := if signed && t[0] == '-' then -v else v;
      if Int32Min <= n <= Int32Max then Some(n) else None
  }

  /** The value `int.TryParse` leaves in its out parameter: the number, or 0 when parsing fails. */
  function ParseInt32OrZero(s: string): (r: int)
    ensures ParseInt32(s).None? ==> r == 0
    ensures ParseInt32(s).Some? ==> r == ParseInt32(s).value
    ensures Int32Min <= r <= Int32Max
  {
    match ParseInt32(s)
    case Some(n) => n
    case None => 0
  }

  /** Text that neither starts nor ends with white space is left as it is by trimming. */
  lemma TrimsNothing(s: string)
    requires |s| > 0 && !IsWhite(s[0]) && !IsWhite(s[|s| - 1])
    ensures TrimEnd(TrimStart(s)) == s
  {
    assert TrimStart(s) == s;
  }

  /** A run of digits in the 32-bit range reads back as its value. */
  lemma ParseUnsigned(d: string, s: string)
    requires |d| > 0 && AllDigits(d) && DigitsValue(d) <= Int32Max && s == d
    ensures ParseInt32(s) == Some(DigitsValue(d))
  {
    assert IsDigit(d[0]) && IsDigit(d[|d| - 1]);
    TrimsNothing(d);
  }

  /** A minus sign before a run of digits in range reads back as the negated value. */
  lemma ParseNegative(d: string, s: string)
    requires |d| > 0 && AllDigits(d) && DigitsValue(d) <= -Int32Min && s == "-" + d
    ensures ParseInt32(s) == Some(-(DigitsValue(d) as int))
  {
    assert s[|s| - 1] == d[|d| - 1] && IsDigit(d[|d| - 1]);
    TrimsNothing(s);
    NegativeDigits(d);
  }

  lemma NegativeDigits(d: string)
    requires |d| > 0 && AllDigits(d) && DigitsValue(d) <= -Int32Min
    ensures ParseTrimmed("-" + d) == Some(-(DigitsValue(d) as int))
  {
    var s := "-" + d;
    assert s[0] == '-' && s[1..] == d;
  }

  /** Every 32-bit integer reads back from its own decimal text. */
  lemma ParseShowInt32(n: int)
    requires Int32Min <= n <= Int32Max
    ensures ParseInt32(ShowInt(n)) == Some(n)
  {
    if n < 0 {
      ParseShowNegative(n);
    } else {
      ParseShowNonNegative(n);
    }
  }

  lemma ParseShowNegative(n: int)
    requires Int32Min <= n < 0
    ensures ParseInt32(ShowInt(n)) == Some(n)
  {
    var m: nat := -n;
    ShowNatDigits(m);
    assert ShowInt(n) == "-" + ShowNat(m);
    ParseNegative(ShowNat(m), ShowInt(n));
  }

  lemma ParseShowNonNegative(n: int)
    requires 0 <= n <= Int32Max
    ensures ParseInt32(ShowInt(n)) == Some(n)
  {
    ShowNatDigits(n);
    ParseUnsigned(ShowNat(n), ShowInt(n));
  }

  // ---------------------------------------------------------------------------
  // Custom numeric formats "00" and "000"
  // ---------------------------------------------------------------------------

  /** Left-pads a digit string with '0' up to `width` characters. */
  function ZeroPad(digits: string, width: nat): string {
    Zeros(if |digits| >= width then 0 else width - |digits|) + digits
  }

  function Zeros(n: nat): (z: string)
    ensures |z| == n && forall i :: 0 <= i < n ==> z[i] == '0'
  {
    seq(n, _ => '0')
  }

  /** `n.ToString(format)` for a format of `width` zeros: a minus sign, then at least `width` digits. */
  function FormatZeros(n: int, width: nat): string {
    if n < 0 then "-" + ZeroPad(ShowNat(-n), width) else ZeroPad(ShowNat(n), width)
  }

  /** Leading zeros do not change the value of a digit string. */
  lemma {:induction false} LeadingZerosValue(z: string, d: string)
    requires forall i :: 0 <= i < |z| ==> z[i] == '0'
    requires AllDigits(d)
    ensures AllDigits(z + d) && DigitsValue(z + d) == DigitsValue(d)
    decreases |d|
  {
    if |d| == 0 {
      assert z + d == z;
      AllZerosValue(z);
    } else {
      var d' := d[..|d| - 1];
      assert (z + d)[..|z + d| - 1] == z + d';
      LeadingZerosValue(z, d');
    }
  }

  lemma {:induction false} AllZerosValue(z: string)
    requires forall i :: 0 <= i < |z| ==> z[i] == '0'
    ensures AllDigits(z) && DigitsValue(z) == 0
    decreases |z|
  {
    if |z| > 0 {
      AllZerosValue(z[..|z| - 1]);
    }
  }

  /** A number in [0, 10^width) is formatted as exactly `width` digits that denote it. */
  lemma FormatZerosExact(n: int, width: nat)
    requires width >= 1 && 0 <= n < Pow10(width)
    ensures |FormatZeros(n, width)| == width
    ensures AllDigits(FormatZeros(n, width)) && DigitsValue(FormatZeros(n, width)) == n
  {
    var d := ShowNat(n);
    ShowNatDigits(n);
    ShowNatLength(n, width, Pow10(width));
    var z := Zeros(width - |d|);
    assert FormatZeros(n, width) == z + d;
    LeadingZerosValue(z, d);
  }
}
