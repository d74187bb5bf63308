/** The numeric conversions of the C library that the device configuration uses. */
module CNumbers {
  import opened CText
  import opened Options

  const INT_MIN: int := -0x8000_0000
  const INT_MAX: int := 0x7fff_ffff

  /** Reduction of a number to a 32-bit signed integer. */
  function ToInt32(n: int): (r: int)
    ensures INT_MIN <= r <= INT_MAX
    ensures INT_MIN <= n <= INT_MAX ==> r == n
  {
    (n - INT_MIN) % 0x1_0000_0000 + INT_MIN
  }

  function DigitValue(c: char): nat {
    if '0' <= c <= '9' then (c - '0') as nat
    else if 'a' <= c <= 'f' then (c - 'a') as nat + 10
    else if 'A' <= c <= 'F' then (c - 'A') as nat + 10
    else 16
  }

  predicate IsDigit(c: char, base: nat) {
    DigitValue(c) < base
  }

  /** How many digits start the text. */
  function DigitRun(s: string, base: nat, i: nat): (n: nat)
    requires i <= |s|
    ensures i <= n <= |s| && (forall j | i <= j < n :: IsDigit(s[j], base)) && (n < |s| ==> !IsDigit(s[n], base))
    decreases |s| - i
  {
    if i < |s| && IsDigit(s[i], base) then DigitRun(s, base, i + 1) else i
  }

  function Number(digits: string, base: nat): nat {
    if digits == "" then 0
    else Number(digits[..|digits| - 1], base) * base + DigitValue(digits[|digits| - 1])
  }

  /** An optional sign. */
  function SignOf(s: string): int {
    if s != "" && s[0] == '-' then -1 else 1
  }

  function Unsigned(s: string): string {
    if s != "" && (s[0] == '-' || s[0] == '+') then s[1..] else s
  }

  /** `atoi`: white space, a sign, decimal digits; 0 without digits. */
  function Atoi(s: string): (r: int)
    ensures INT_MIN <= r <= INT_MAX
  {
    var t := LTrim(s);
    var d := Unsigned(t);
    ToInt32(SignOf(t) * Number(d[..DigitRun(d, 10, 0)], 10))
  }

  function SkipHexPrefix(s: string): string {
    if |s| >= 2 && s[0] == '0' && (s[1] == 'x' || s[1] == 'X') then s[2..] else s
  }

  /** `sscanf(s, "%x", &r)`: white space, a sign, "0x", hexadecimal digits; no conversion without
      digits. */
  function ScanHex(s: string): (r: Option<int>)
    ensures r.Some? ==> INT_MIN <= r.value <= INT_MAX
  {
    var t := LTrim(s);
    var d := SkipHexPrefix(Unsigned(t));
    var n := DigitRun(d, 16, 0);
    if n == 0 then None else Some(ToInt32(SignOf(t) * Number(d[..n], 16)))
  }

  // ---------------------------------------------------------------- printing

  function DigitChar(d: nat): (c: char)
    requires d < 16
    ensures DigitValue(c) == d && !IsSpace(c)
  {
    "0123456789abcdef"[d]
  }

  function Digits(n: nat, base: nat): (s: string)
    requires base == 10 || base == 16
    ensures s != "" && forall i | 0 <= i < |s| :: IsDigit(s[i], base) && !IsSpace(s[i])
    decreases n
  {
    var d := DigitChar(n % base);
    if n < base then [d] else Digits(n / base, base) + [d]
  }

  lemma {:induction false} NumberOfDecimal(n: nat)
    ensures Number(Digits(n, 10), 10) == n
    decreases n
  {
    hide Number, DigitValue, IsDigit;
    NoNumber(10);
    if n >= 10 {
      NumberOfDecimal(n / 10);
    }
    NumberNext(if n < 10 then "" else Digits(n / 10, 10), DigitChar(n % 10), 10);
    assert [DigitChar(n % 10)] == "" + [DigitChar(n % 10)];
  }

  lemma {:induction false} NumberOfHex(n: nat)
    ensures Number(Digits(n, 16), 16) == n
    decreases n
  {
    hide Number, DigitValue, IsDigit;
    NoNumber(16);
    if n >= 16 {
      NumberOfHex(n / 16);
    }
    NumberNext(if n < 16 then "" else Digits(n / 16, 16), DigitChar(n % 16), 16);
    assert [DigitChar(n % 16)] == "" + [DigitChar(n % 16)];
  }

  lemma {:induction false} NoNumber(base: nat)
    ensures Number("", base) == 0
  {
  }

  lemma {:induction false} NumberNext(s: string, c: char, base: nat)
    ensures Number(s + [c], base) == Number(s, base) * base + DigitValue(c)
  {
    assert (s + [c])[..|s|] == s;
  }

  function Power(base: nat, k: nat): nat {
    if k == 0 then 1 else base * Power(base, k - 1)
  }

  /** `k` digits are enough below `base` to the power `k`. */
  lemma {:induction false} DigitsFit(n: nat, base: nat, k: nat)
    requires (base == 10 || base == 16) && k > 0 && n < Power(base, k)
    ensures |Digits(n, base)| <= k
    decreases k
  {
    if n >= base {
      if base == 10 {
        DigitsFit(n / 10, 10, k - 1);
      } else {
        DigitsFit(n / 16, 16, k - 1);
      }
    }
  }

  /** An integer in decimal. */
  function Decimal(n: int): string {
    if n < 0 then "-" + Digits(-n, 10) else Digits(n, 10)
  }

  /** A 32-bit pattern in hexadecimal. */
  function Hex(n: int): string {
    "0x" + Digits(n % 0x1_0000_0000, 16)
  }

  lemma {:induction false} DigitRunAll(s: string, base: nat)
    requires forall i | 0 <= i < |s| :: IsDigit(s[i], base)
    ensures DigitRun(s, base, 0) == |s| && s[..|s|] == s
  {
  }

  /** `atoi` reads back every printed integer. */
  lemma {:induction false} AtoiDecimal(n: int)
    requires INT_MIN <= n <= INT_MAX
    ensures Atoi(Decimal(n)) == n
  {
    hide Number;
    var d := Digits(if n < 0 then -n else n, 10);
    NumberOfDecimal(if n < 0 then -n else n);
    DigitRunAll(d, 10);
    LTrimAt(Decimal(n), 0);
    assert d[0] != '-' && d[0] != '+' by {
      assert IsDigit(d[0], 10);
    }
    assert n < 0 ==> Decimal(n)[1..] == d;
  }

  lemma {:induction false} ScanHexDigits(d: string)
    requires d != "" && forall i | 0 <= i < |d| :: IsDigit(d[i], 16)
    ensures ScanHex("0x" + d) == Some(ToInt32(Number(d, 16)))
  {
    hide Number, ToInt32, DigitRun, IsDigit, DigitValue, LTrim;
    var s := "0x" + d;
    assert s[0] == '0' && s[1] == 'x' && s[2..] == d;
    DigitRunAll(d, 16);
    LTrimAt(s, 0);
    assert LTrim(s) == s;
    assert Unsigned(s) == s && SignOf(s) == 1 && SkipHexPrefix(s) == d;
  }

  lemma {:induction false} WrapBack(n: int)
    requires INT_MIN <= n <= INT_MAX
    ensures ToInt32(n % 0x1_0000_0000) == n
  {
  }

  /** `%x` reads back every printed 32-bit pattern. */
  lemma {:induction false} ScanHexHex(n: int)
    requires INT_MIN <= n <= INT_MAX
    ensures ScanHex(Hex(n)) == Some(n)
  {
    hide Number, ToInt32, ScanHex, Digits;
    ScanHexDigits(Digits(n % 0x1_0000_0000, 16));
    NumberOfHex(n % 0x1_0000_0000);
    WrapBack(n);
  }

  // ---------------------------------------------------------------- any text

  const LOWER: string := "0123456789abcdef"
  const UPPER: string := "0123456789ABCDEF"

  /** The text writes the digits `ds`, in small or capital letters. */
  ghost predicate Spells(text: string, ds: seq<nat>, base: nat) {
    && base <= 16 && |text| == |ds|
    && forall i | 0 <= i < |ds| :: ds[i] < base && (text[i] == LOWER[ds[i]] || text[i] == UPPER[ds[i]])
  }

  /** What digits are worth by their places. */
  function PlaceValue(ds: seq<nat>, base: nat): nat {
    if ds == [] then 0 else ds[0] * Power(base, |ds| - 1) + PlaceValue(ds[1..], base)
  }

  /** No digit of the base starts the text. */
  ghost predicate NoDigitFirst(text: string, base: nat) {
    base <= 16 && (text == "" || forall k | 0 <= k < base :: text[0] != LOWER[k] && text[0] != UPPER[k])
  }

  lemma {:induction false} DigitValues(c: char, base: nat)
    requires base <= 16
    ensures forall k | 0 <= k < 16 :: DigitValue(LOWER[k]) == DigitValue(UPPER[k]) == k
    ensures IsDigit(c, base) <==> exists k | 0 <= k < base :: c == LOWER[k] || c == UPPER[k]
  {
    if IsDigit(c, base) {
      var k := DigitValue(c);
      assert c == LOWER[k] || c == UPPER[k];
    }
  }

  lemma {:induction false} PowerTimes(d: nat, p: nat, base: nat)
    ensures d * (base * p) == d * p * base
  {
  }

  lemma {:induction false} PlaceValueNext(ds: seq<nat>, d: nat, base: nat)
    ensures PlaceValue(ds + [d], base) == PlaceValue(ds, base) * base + d
    decreases |ds|
  {
    if ds == [] {
      assert ([] + [d])[1..] == [];
    } else {
      assert (ds + [d])[1..] == ds[1..] + [d];
      PlaceValueNext(ds[1..], d, base);
      PowerTimes(ds[0], Power(base, |ds| - 1), base);
    }
  }

  lemma {:induction false} NumberIsPlaceValue(text: string, ds: seq<nat>, base: nat)
    requires Spells(text, ds, base)
    ensures Number(text, base) == PlaceValue(ds, base)
    decreases |ds|
  {
    hide DigitValue, PlaceValue, IsDigit;
    if ds == [] {
      NoPlaces(base);
    } else {
      var n := |ds| - 1;
      NumberIsPlaceValue(text[..n], ds[..n], base);
      DigitValues(text[n], base);
      PlaceValueNext(ds[..n], ds[n], base);
      assert ds == ds[..n] + [ds[n]];
    }
  }

  lemma {:induction false} NoPlaces(base: nat)
    ensures PlaceValue([], base) == 0
  {
  }

  /** The digits that a conversion takes are those in front of anything else. */
  lemma {:induction false} RunOfDigits(text: string, ds: seq<nat>, base: nat, rest: string)
    requires Spells(text, ds, base) && NoDigitFirst(rest, base)
    ensures DigitRun(text + rest, base, 0) == |text| && (text + rest)[..|text|] == text
  {
    hide DigitValue, IsDigit;
    var s, n := text + rest, DigitRun(text + rest, base, 0);
    if n < |text| {
      DigitValues(s[n], base);
    } else if n > |text| {
      DigitValues(s[|text|], base);
    }
  }

  ghost predicate Sign(sign: string) {
    sign == "" || sign == "+" || sign == "-"
  }

  /** A text that could not be taken for white space or a sign. */
  ghost predicate Starts(body: string) {
    body != "" ==> !IsSpace(body[0]) && body[0] != '+' && body[0] != '-'
  }

  /** What follows the white space and the sign. */
  lemma {:induction false} SignedText(w: string, sign: string, body: string)
    requires AllSpace(w) && Sign(sign) && (sign == "" ==> Starts(body))
    ensures var t := LTrim(w + sign + body);
            Unsigned(t) == body && SignOf(t) == if sign == "-" then -1 else 1
  {
    hide LTrim;
    var t := sign + body;
    assert w + sign + body == w + t;
    LTrimIs(w, t);
    assert sign == "" ==> t == body;
  }

  lemma {:induction false} DigitStarts(text: string, ds: seq<nat>, base: nat, rest: string)
    requires Spells(text, ds, base) && (text == "" ==> Starts(rest))
    ensures Starts(text + rest)
  {
    if text != "" {
      assert (text + rest)[0] == text[0] == if text[0] == LOWER[ds[0]] then LOWER[ds[0]] else UPPER[ds[0]];
    } else {
      assert text + rest == rest;
    }
  }

  /** Any decimal text converts to its signed place value: white space and one sign may come in
      front, and the first other character ends it. Without digits the value is 0. */
  lemma {:induction false} AtoiText(w: string, sign: string, text: string, ds: seq<nat>, rest: string)
    requires AllSpace(w) && Sign(sign) && Spells(text, ds, 10) && NoDigitFirst(rest, 10)
    requires sign == "" && text == "" ==> Starts(rest)
    ensures Atoi(w + sign + (text + rest)) == ToInt32((if sign == "-" then -1 else 1) * PlaceValue(ds, 10))
  {
    hide DigitRun, Number, ToInt32, PlaceValue, LTrim, Unsigned, SignOf, Spells, Starts, Sign, NoDigitFirst;
    if sign == "" {
      DigitStarts(text, ds, 10, rest);
    }
    SignedText(w, sign, text + rest);
    RunOfDigits(text, ds, 10, rest);
    NumberIsPlaceValue(text, ds, 10);
  }

  lemma {:induction false} ScanHexBody(w: string, sign: string, body: string, text: string, ds: seq<nat>, rest: string)
    requires AllSpace(w) && Sign(sign) && Spells(text, ds, 16) && NoDigitFirst(rest, 16)
    requires sign == "" ==> Starts(body)
    requires SkipHexPrefix(body) == text + rest
    ensures ScanHex(w + sign + body)
         == if text == "" then None else Some(ToInt32((if sign == "-" then -1 else 1) * PlaceValue(ds, 16)))
  {
    hide DigitRun, Number, ToInt32, PlaceValue, LTrim, Unsigned, SignOf, Spells, Starts, Sign, NoDigitFirst;
    hide SkipHexPrefix;
    SignedText(w, sign, body);
    RunOfDigits(text, ds, 16, rest);
    NumberIsPlaceValue(text, ds, 16);
  }

  /** Any hexadecimal text converts to its signed place value, in small or capital digits, and
      nothing is converted without a digit. */
  lemma {:induction false} ScanHexText(w: string, sign: string, text: string, ds: seq<nat>, rest: string)
    requires AllSpace(w) && Sign(sign) && Spells(text, ds, 16) && NoDigitFirst(rest, 16)
    requires sign == "" && text == "" ==> Starts(rest)
    requires !(text == "0" && rest != "" && rest[0] in "xX")
    ensures ScanHex(w + sign + (text + rest))
         == if text == "" then None else Some(ToInt32((if sign == "-" then -1 else 1) * PlaceValue(ds, 16)))
  {
    hide ScanHex, ToInt32, PlaceValue, Starts, Sign;
    if sign == "" {
      DigitStarts(text, ds, 16, rest);
    }
    NoPrefix(text, ds, rest);
    ScanHexBody(w, sign, text + rest, text, ds, rest);
  }

  lemma {:induction false} NoPrefix(text: string, ds: seq<nat>, rest: string)
    requires Spells(text, ds, 16) && NoDigitFirst(rest, 16) && !(text == "0" && rest != "" && rest[0] in "xX")
    ensures SkipHexPrefix(text + rest) == text + rest
  {
    var s := text + rest;
    assert rest != "" ==> rest[0] != LOWER[0];
    if |s| >= 2 && s[0] == '0' && text != "" {
      if |text| == 1 {
        assert text == "0" && s[1] == rest[0];
      } else {
        assert s[1] == text[1] && (text[1] == LOWER[ds[1]] || text[1] == UPPER[ds[1]]);
      }
    }
  }

  /** "0x" or "0X" in front of the digits changes nothing. */
  lemma {:induction false} ScanHexPrefixed(
      w: string, sign: string, x: string, text: string, ds: seq<nat>, rest: string)
    requires AllSpace(w) && Sign(sign) && Spells(text, ds, 16) && NoDigitFirst(rest, 16)
    requires x == "0x" || x == "0X"
    ensures ScanHex(w + sign + (x + text + rest))
         == if text == "" then None else Some(ToInt32((if sign == "-" then -1 else 1) * PlaceValue(ds, 16)))
  {
    hide ScanHex, ToInt32, PlaceValue, Sign, Spells, NoDigitFirst;
    var body := x + text + rest;
    assert body[0] == x[0] && body[1] == x[1] && body[2..] == text + rest;
    ScanHexBody(w, sign, body, text, ds, rest);
  }
}
