/** The string primitives of the .NET base library that the USSD core relies on:
    `string.IsNullOrWhiteSpace`, `Trim`/`TrimEnd`, `int.TryParse`, `double.TryParse`
    (decimal notation only), integer rendering, the `:F2` number format and
    `string.Join` over sorted integer keys. */
module Text {
  import opened Wrappers
  import opened IntMath

  /** `char.IsWhiteSpace`: the Unicode separators plus the control characters
      U+0009..U+000D, U+0085 and U+00A0. */
  predicate IsWhiteSpace(c: char) {
    c == ' ' || '\t' <= c <= '\r' || c == '\U{85}' || c == '\U{A0}' || c == '\U{1680}'
    || '\U{2000}' <= c <= '\U{200A}' || c == '\U{2028}' || c == '\U{2029}'
    || c == '\U{202F}' || c == '\U{205F}' || c == '\U{3000}'
  }

  /** `string.IsNullOrWhiteSpace` (a null string is modelled as the empty one). */
  predicate IsBlank(s: string) {
    forall i :: 0 <= i < |s| ==> IsWhiteSpace(s[i])
  }

  /** `TrimStart()`: drops the longest all-white prefix. */
  function TrimStart(s: string): (r: string)
    ensures |r| <= |s|
  {
    if s != [] && IsWhiteSpace(s[0]) then TrimStart(s[1..]) else s
  }

  /** What `TrimStart` drops is white, what it keeps is a suffix that starts with a
      non-white character. */
  lemma {:induction false} TrimStartFacts(s: string)
    ensures var r := TrimStart(s);
      && r == s[|s| - |r|..]
      && (r == [] || !IsWhiteSpace(r[0]))
      && (forall i :: 0 <= i < |s| - |r| ==> IsWhiteSpace(s[i]))
  {
    if s != [] && IsWhiteSpace(s[0]) {
      TrimStartFacts(s[1..]);
      var r := TrimStart(s);
      forall i | 0 <= i < |s| - |r| ensures IsWhiteSpace(s[i]) {
        if i > 0 { assert s[i] == s[1..][i - 1]; }
      }
    }
  }

  /** `TrimEnd()`: drops the longest all-white suffix. */
  function TrimEnd(s: string): (r: string)
    ensures |r| <= |s|
  {
    if s != [] && IsWhiteSpace(s[|s| - 1]) then TrimEnd(s[..|s| - 1]) else s
  }

  /** What `TrimEnd` drops is white, what it keeps is a prefix that ends with a non-white
      character. */
  lemma {:induction false} TrimEndFacts(s: string)
    ensures var r := TrimEnd(s);
      && r == s[..|r|]
      && (r == [] || !IsWhiteSpace(r[|r| - 1]))
      && (forall i :: |r| <= i < |s| ==> IsWhiteSpace(s[i]))
  {
    if s != [] && IsWhiteSpace(s[|s| - 1]) {
      var p := s[..|s| - 1];
      TrimEndFacts(p);
      var r := TrimEnd(s);
      assert r == p[..|r|];
      forall i | |r| <= i < |s| ensures IsWhiteSpace(s[i]) {
        if i < |s| - 1 { assert s[i] == p[i]; }
      }
    }
  }

  /** `Trim()`: the slice of `s` between its white prefix and its white suffix. */
  function Trim(s: string): (r: string)
    ensures |r| <= |s|
  {
    TrimEnd(TrimStart(s))
  }

  /** The trimmed text neither starts nor ends with a white character. */
  lemma TrimFacts(s: string)
    ensures var r := Trim(s);
      r == [] || (!IsWhiteSpace(r[0]) && !IsWhiteSpace(r[|r| - 1]))
  {
    var t := TrimStart(s);
    TrimStartFacts(s);
    TrimEndFacts(t);
    var r := TrimEnd(t);
    if r != [] {
      assert r[0] == t[0];
    }
  }

  /** Blank text is exactly the text that trims to nothing. */
  lemma BlankIffTrimmedEmpty(s: string)
    ensures IsBlank(s) <==> Trim(s) == []
  {
    var t := TrimStart(s);
    var k := |s| - |t|;
    TrimStartFacts(s);
    TrimEndFacts(t);
    if Trim(s) != [] {
      assert s[k] == t[0] == Trim(s)[0];
    } else {
      assert t == [];
    }
  }

  /** Trimming is idempotent. */
  lemma TrimIdempotent(s: string)
    ensures Trim(Trim(s)) == Trim(s)
  {
    var r := Trim(s);
    TrimFacts(s);
    assert TrimStart(r) == r;
    assert TrimEnd(r) == r;
  }

  predicate IsDigit(c: char) { '0' <= c <= '9' }

  predicate AllDigits(s: string) { forall i :: 0 <= i < |s| ==> IsDigit(s[i]) }

  function DigitChar(d: nat): (c: char)
    requires d < 10
    ensures IsDigit(c) && c as int - '0' as int == d
  {
    (('0' as int) + d) as char
  }

  /** Decimal rendering of a natural number, most significant digit first, no leading zeros. */
  function NatToString(n: nat): (r: string)
    ensures |r| >= 1 && AllDigits(r)
    ensures n > 0 ==> r[0] != '0'
  {
    if n < 10 then [DigitChar(n)] else NatToString(n / 10) + [DigitChar(n % 10)]
  }

  /** `int.ToString()` under the invariant culture. */
  function IntToString(n: int): (r: string)
    ensures |r| >= 1
    ensures n < 0 <==> r[0] == '-'
  {
    if n < 0 then "-" + NatToString(-n) else NatToString(n)
  }

  /** The value of a string of decimal digits. */
  function DigitsValue(s: string): nat
    requires AllDigits(s)
  {
    if s == [] then 0 else DigitsValue(s[..|s| - 1]) * 10 + (s[|s| - 1] as int - '0' as int)
  }

  lemma {:induction false} DigitsValueOfNatToString(n: nat)
    ensures DigitsValue(NatToString(n)) == n
  {
    if n >= 10 {
      var p := NatToString(n / 10);
      var r := p + [DigitChar(n % 10)];
      assert r[..|r| - 1] == p;
      DigitsValueOfNatToString(n / 10);
    }
  }

  /** `int.TryParse` (integer style, invariant culture) on text that has already been
      trimmed: an optional sign, then at least one ASCII digit, the value within 32 bits. */
  function ParseInt(s: string): (r: Option<int>)
    ensures r.Some? ==> IsInt32(r.value)
    ensures r.Some? ==> s != [] && (IsDigit(s[0]) || s[0] == '-' || s[0] == '+')
    ensures r.Some? ==> forall i :: 0 <= i < |s| ==> !IsWhiteSpace(s[i])
  {
    if s == [] then None
    else
      var body := if s[0] == '-' || s[0] == '+' then s[1..] else s;
      if body == [] || !AllDigits(body) then None
      else
        var magnitude: int := DigitsValue(body);
        var v: int := if s[0] == '-' then -magnitude else magnitude;
        if IsInt32(v) then
          assert forall i :: 0 <= i < |s| ==> !IsWhiteSpace(s[i]) by {
            forall i | 0 <= i < |s| ensures !IsWhiteSpace(s[i]) {
              if s[0] == '-' || s[0] == '+' {
                if i > 0 { assert s[i] == body[i - 1]; }
              } else {
                assert s[i] == body[i];
              }
            }
          }
          Some(v)
        else None
  }

  /** What is rendered as a number parses back to that number: a user who types the
      number shown on screen selects exactly that entry. */
  lemma ParseIntOfIntToString(n: int)
    requires IsInt32(n)
    ensures ParseInt(IntToString(n)) == Some(n)
  {
    var s := IntToString(n);
    if n < 0 {
      assert s[1..] == NatToString(-n);
      DigitsValueOfNatToString(-n);
    } else {
      DigitsValueOfNatToString(n);
    }
  }

  /** The first position of `c` in `s`, searching from position `k` on. */
  function IndexOfCharFrom(s: string, c: char, k: nat): (r: Option<nat>)
    requires k <= |s|
    ensures r.Some? ==> k <= r.value < |s| && s[r.value] == c && forall i :: k <= i < r.value ==> s[i] != c
    ensures r.None? ==> forall i :: k <= i < |s| ==> s[i] != c
    decreases |s| - k
  {
    if k == |s| then None
    else if s[k] == c then Some(k)
    else IndexOfCharFrom(s, c, k + 1)
  }

  /** The first position of `c` in `s`, as `string.IndexOf` finds it. */
  function IndexOfChar(s: string, c: char): (r: Option<nat>)
    ensures r.Some? ==> r.value < |s| && s[r.value] == c && forall i :: 0 <= i < r.value ==> s[i] != c
    ensures r.None? ==> forall i :: 0 <= i < |s| ==> s[i] != c
  {
    IndexOfCharFrom(s, c, 0)
  }

  function Pow10(k: nat): (r: nat)
    ensures r >= 1
  {
    if k == 0 then 1 else 10 * Pow10(k - 1)
  }

  /** Unsigned plain decimal notation: digits with at most one '.', and at least one
      digit; the value is exact. */
  function ParseUnsignedDecimal(body: string): Option<real>
  {
    var dot := IndexOfChar(body, '.');
    var whole := if dot.Some? then body[..dot.value] else body;
    var fraction := if dot.Some? then body[dot.value + 1..] else "";
    if |whole| + |fraction| == 0 || !AllDigits(whole) || !AllDigits(fraction) then None
    else Some(DecimalValue(DigitsValue(whole), DigitsValue(fraction), |fraction|))
  }

  /** The value of a decimal with whole part `whole` and `digits` fractional digits
      reading `fraction`. */
  function DecimalValue(whole: nat, fraction: nat, digits: nat): real
  {
    whole as real + fraction as real / Pow10(digits) as real
  }

  /** `double.TryParse` restricted to plain decimal notation: an optional sign, then an
      unsigned decimal. */
  function ParseDecimal(s: string): (r: Option<real>)
    ensures r.Some? ==> s != []
  {
    if s == [] then None
    else
      var body := if s[0] == '-' || s[0] == '+' then s[1..] else s;
      match ParseUnsignedDecimal(body)
      case None => None
      case Some(magnitude) => Some(if s[0] == '-' then -magnitude else magnitude)
  }

  /** An integer typed without a decimal point reads as that integer. */
  lemma ParseDecimalOfIntToString(n: int)
    ensures ParseDecimal(IntToString(n)) == Some(n as real)
  {
    var s := IntToString(n);
    var body := if s[0] == '-' || s[0] == '+' then s[1..] else s;
    var m: nat := if n < 0 then -n else n;
    assert body == NatToString(m) by {
      if n < 0 { assert s[1..] == NatToString(-n); }
    }
    assert IndexOfChar(body, '.').None? by {
      forall i | 0 <= i < |body| ensures body[i] != '.' { assert IsDigit(body[i]); }
    }
    DigitsValueOfNatToString(m);
  }

  /** In "w.f" with w made of digits, the first '.' is the one after w. */
  lemma PointAfterDigits(w: string, f: string)
    requires AllDigits(w)
    ensures var body := w + "." + f;
      && IndexOfChar(body, '.') == Some(|w|) && body[..|w|] == w && body[|w| + 1..] == f
  {
    var body := w + "." + f;
    assert body[|w|] == '.';
    assert body[..|w|] == w && body[|w| + 1..] == f;
  }

  /** Unsigned "w.f" reads as w plus f scaled down by one power of ten per fractional
      digit. */
  lemma UnsignedPointed(w: string, f: string)
    requires AllDigits(w) && AllDigits(f) && |w| + |f| > 0
    ensures ParseUnsignedDecimal(w + "." + f) == Some(DecimalValue(DigitsValue(w), DigitsValue(f), |f|))
  {
    var body := w + "." + f;
    PointAfterDigits(w, f);
    var dot := IndexOfChar(body, '.');
    var whole := body[..dot.value];
    var fraction := body[dot.value + 1..];
    assert whole == w && fraction == f;
    assert !(|whole| + |fraction| == 0 || !AllDigits(whole) || !AllDigits(fraction));
  }

  /** Text that starts with neither sign reads as an unsigned decimal. */
  lemma UnsignedReading(t: string)
    requires t != [] && t[0] != '-' && t[0] != '+'
    ensures ParseDecimal(t) == ParseUnsignedDecimal(t)
  {
  }

  /** A typed decimal "w.f" reads as w plus f scaled down by one power of ten per
      fractional digit: "15.50" reads 15 + 50/100. */
  lemma ParseDecimalOfPointed(w: string, f: string)
    requires AllDigits(w) && AllDigits(f) && |w| + |f| > 0
    ensures ParseDecimal(w + "." + f) == Some(DecimalValue(DigitsValue(w), DigitsValue(f), |f|))
  {
    var body := w + "." + f;
    UnsignedPointed(w, f);
    assert body[0] == '.' || IsDigit(body[0]);
    UnsignedReading(body);
  }

  /** Rounds half away from zero, as the `:F2` format does. */
  function RoundAway(x: real): (r: int)
    ensures r as real - 1.0 / 2.0 <= x <= r as real + 1.0 / 2.0
    ensures x >= 0.0 ==> r >= 0
  {
    if x >= 0.0 then (x + 1.0 / 2.0).Floor else -((-x + 1.0 / 2.0).Floor)
  }

  function TwoDigits(n: nat): (r: string)
    requires n < 100
    ensures |r| == 2 && AllDigits(r)
  {
    [DigitChar(n / 10), DigitChar(n % 10)]
  }

  /** The `:F2` format: a sign for negative amounts, the whole part, '.', two decimals. */
  function FormatFixed2(x: real): (r: string)
    ensures |r| >= 4 && r[|r| - 3] == '.'
    ensures x >= 0.0 ==> r[0] != '-'
  {
    var cents := RoundAway(x * 100.0);
    var magnitude: nat := if cents < 0 then -cents else cents;
    (if cents < 0 then "-" else "") + NatToString(magnitude / 100) + "." + TwoDigits(magnitude % 100)
  }

  /** The two digits after the point read back as the number they render. */
  lemma DigitsValueOfTwoDigits(n: nat)
    requires n < 100
    ensures DigitsValue(TwoDigits(n)) == n
  {
    var r := TwoDigits(n);
    assert r[..1][..0] == [];
    assert r[..1] == [DigitChar(n / 10)];
    assert DigitsValue(r[..1]) == n / 10;
    assert DigitsValue(r) == DigitsValue(r[..1]) * 10 + n % 10;
  }

  /** The whole part and the two decimals of a non-negative number of cents make up its
      value in hundredths. */
  lemma CentsDecimalValue(cents: nat)
    ensures DecimalValue(DigitsValue(NatToString(cents / 100)), DigitsValue(TwoDigits(cents % 100)), 2) == cents as real / 100.0
  {
    var q := cents / 100;
    var r := cents % 100;
    DigitsValueOfNatToString(q);
    DigitsValueOfTwoDigits(r);
    assert Pow10(2) == 100 by { assert Pow10(2) == 10 * Pow10(1); }
    assert cents == q * 100 + r;
  }

  /** The text of a non-negative number of cents, without a sign. */
  lemma UnsignedCentsText(x: real)
    ensures var cents := RoundAway(x * 100.0);
      var magnitude: nat := if cents < 0 then -cents else cents;
      var unsigned := NatToString(magnitude / 100) + "." + TwoDigits(magnitude % 100);
      FormatFixed2(x) == (if cents < 0 then "-" + unsigned else unsigned)
  {
    var cents := RoundAway(x * 100.0);
    var magnitude: nat := if cents < 0 then -cents else cents;
    var w, f := NatToString(magnitude / 100), TwoDigits(magnitude % 100);
    assert (if cents < 0 then "-" else "") + w + "." + f == (if cents < 0 then "-" else "") + (w + "." + f);
    assert "" + (w + "." + f) == w + "." + f;
  }

  /** The `:F2` text of a non-negative amount reads back as the amount rounded half away
      from zero to whole cents, so it never differs from the amount by more than half a
      cent. */
  lemma FormatFixed2ReadsBack(x: real)
    ensures x >= 0.0 ==> ParseDecimal(FormatFixed2(x)) == Some(RoundAway(x * 100.0) as real / 100.0)
    ensures x >= 0.0 ==> x - 1.0 / 200.0 <= ParseDecimal(FormatFixed2(x)).value <= x + 1.0 / 200.0
  {
    var cents := RoundAway(x * 100.0);
    if x >= 0.0 {
      UnsignedCentsText(x);
      ParseDecimalOfPointed(NatToString(cents / 100), TwoDigits(cents % 100));
      CentsDecimalValue(cents);
    }
  }

  /** Rounding half away from zero is symmetric about zero. */
  lemma RoundAwayNegated(y: real)
    requires y < 0.0
    ensures RoundAway(-y) == -RoundAway(y)
  {
  }

  /** A negative amount that does not round to zero is written as its magnitude after a
      '-'. */
  lemma FormatFixed2OfNegative(x: real)
    ensures x < 0.0 && RoundAway(x * 100.0) != 0 ==> FormatFixed2(x) == "-" + FormatFixed2(-x)
  {
    if x < 0.0 && RoundAway(x * 100.0) != 0 {
      var y := x * 100.0;
      assert -x * 100.0 == -y;
      RoundAwayNegated(y);
      UnsignedCentsText(x);
      UnsignedCentsText(-x);
    }
  }

  lemma PickFrom(s: set<int>) returns (x: int)
    requires s != {}
    ensures x in s
  {
    assert exists z :: z in s by {
      if forall z :: z !in s { assert false; }
    }
    x :| x in s;
  }

  lemma {:induction false} HasLeast(s: set<int>)
    requires s != {}
    ensures exists m :: m in s && forall y :: y in s ==> m <= y
    decreases |s|
  {
    var x := PickFrom(s);
    var t := s - {x};
    if t == {} {
      forall y | y in s ensures x <= y {
        assert y in t || y == x;
      }
    } else {
      assert |t| == |s| - 1;
      HasLeast(t);
      var m :| m in t && forall y :: y in t ==> m <= y;
      var w := if x < m then x else m;
      forall y | y in s ensures w <= y {
        if y != x { assert y in t; }
      }
      assert w in s;
    }
  }

  function Least(s: set<int>): (m: int)
    requires s != {}
    ensures m in s && forall y :: y in s ==> m <= y
  {
    HasLeast(s);
    var m :| m in s && forall y :: y in s ==> m <= y;
    m
  }

  /** `r` lists the set `s` in strictly ascending order, each element once. */
  predicate ListsAscending(r: seq<int>, s: set<int>)
  {
    && |r| == |s|
    && (forall i :: 0 <= i < |r| ==> r[i] in s)
    && (forall x :: x in s ==> x in r)
    && (forall i, j :: 0 <= i < j < |r| ==> r[i] < r[j])
  }

  /** The least element in front of an ascending listing of the rest lists the whole set. */
  lemma PrependLeast(s: set<int>, m: int, rest: seq<int>)
    requires m in s && forall y :: y in s ==> m <= y
    requires ListsAscending(rest, s - {m})
    ensures ListsAscending([m] + rest, s)
  {
    var r := [m] + rest;
    assert |s - {m}| == |s| - 1;
    forall i | 0 < i < |r| ensures r[i] == rest[i - 1] && m < r[i] {
      assert rest[i - 1] in s - {m};
    }
    forall x | x in s ensures x in r {
      if x != m { assert x in s - {m}; }
    }
  }

  /** `OrderBy(k => k)` over a set of keys. */
  function SortedInts(s: set<int>): (r: seq<int>)
    ensures ListsAscending(r, s)
    decreases |s|
  {
    if s == {} then []
    else
      var m := Least(s);
      var rest := SortedInts(s - {m});
      PrependLeast(s, m, rest);
      [m] + rest
  }

  /** `string.Join(sep, xs)` over integers. */
  function JoinInts(xs: seq<int>, sep: string): string
  {
    if xs == [] then ""
    else if |xs| == 1 then IntToString(xs[0])
    else IntToString(xs[0]) + sep + JoinInts(xs[1..], sep)
  }
}
