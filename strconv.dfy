/**
 * The parts of Go's `strconv` and `len` that the services rely on:
 * `strconv.Atoi` (request ids), `strconv.Itoa` (generated loan ids) and the
 * byte length of a UTF-8 string (title and author limits).
 *
 * Go's `int` is 64 bits wide on the platforms the services run on, so Atoi
 * accepts exactly the strings made of an optional `+`/`-` sign and one or
 * more ASCII digits whose value lies in the signed 64-bit range.
 */
module StrConv {
  import opened Wrappers

  const MinInt64: int := -0x8000_0000_0000_0000
  const MaxInt64: int := 0x7fff_ffff_ffff_ffff

  predicate InInt64(n: int) {
    MinInt64 <= n <= MaxInt64
  }

  predicate IsDigit(c: char) {
    '0' <= c <= '9'
  }

  predicate AllDigits(s: string) {
    forall i :: 0 <= i < |s| ==> IsDigit(s[i])
  }

  function DigitValue(c: char): (d: nat)
    requires IsDigit(c)
    ensures d < 10
  {
    (c as int) - ('0' as int)
  }

  function DigitChar(d: nat): (c: char)
    requires d < 10
    ensures IsDigit(c) && DigitValue(c) == d
  {
    (('0' as int) + d) as char
  }

  function Pow10(k: nat): (p: nat)
    ensures p >= 1
  {
    if k == 0 then 1 else 10 * Pow10(k - 1)
  }

  /** The value of a digit string read as a decimal numeral, leading zeros allowed. */
  function DecimalValue(ds: string): nat
    requires AllDigits(ds)
    decreases |ds|
  {
    if ds == [] then 0 else DecimalValue(ds[..|ds| - 1]) * 10 + DigitValue(ds[|ds| - 1])
  }

  /** The syntax Atoi accepts: an optional sign followed by one or more ASCII digits. */
  predicate IsIntSyntax(s: string) {
    |s| > 0 &&
    if s[0] == '+' || s[0] == '-' then |s| > 1 && AllDigits(s[1..]) else AllDigits(s)
  }

  /** `s` without its leading sign, if it has one. */
  function Unsigned(s: string): (u: string)
    requires |s| > 0
    ensures |u| + 1 >= |s|
  {
    if s[0] == '+' || s[0] == '-' then s[1..] else s
  }

  /** The integer a string of integer syntax denotes, before any range check. */
  function SyntaxValue(s: string): int
    requires IsIntSyntax(s)
  {
    if s[0] == '-' then -(DecimalValue(s[1..]) as int) else DecimalValue(Unsigned(s))
  }

  /** Go's digit loop `n = n*10 + d`, failing on the first byte that is not a digit. */
  function ScanDigits(ds: string, acc: nat): Option<nat>
    decreases |ds|
  {
    if ds == [] then Some(acc)
    else if !IsDigit(ds[0]) then None
    else ScanDigits(ds[1..], acc * 10 + DigitValue(ds[0]))
  }

  /** Reading the leading digit first agrees with the numeral's value. */
  lemma {:induction false} DecimalValueFront(ds: string)
    requires |ds| > 0 && AllDigits(ds)
    ensures DecimalValue(ds) == DigitValue(ds[0]) * Pow10(|ds| - 1) + DecimalValue(ds[1..])
    decreases |ds|
  {
    var n := |ds|;
    if n > 1 {
      var init, tail := ds[..n - 1], ds[1..];
      DecimalValueFront(init);
      assert init[1..] == tail[..n - 2];
      assert init[0] == ds[0] && tail[n - 2] == ds[n - 1];
      var d0, p, r, dl := DigitValue(ds[0]), Pow10(n - 2), DecimalValue(tail[..n - 2]), DigitValue(ds[n - 1]);
      assert DecimalValue(init) == d0 * p + r;
      assert DecimalValue(ds) == DecimalValue(init) * 10 + dl;
      assert DecimalValue(tail) == r * 10 + dl;
      assert Pow10(n - 1) == 10 * p;
      FrontStep(d0, p, r, dl);
    }
  }

  lemma FrontStep(d0: nat, p: nat, r: nat, dl: nat)
    ensures (d0 * p + r) * 10 + dl == d0 * (10 * p) + (r * 10 + dl)
  {
  }

  /** A non-empty string is all digits when its head is a digit and its tail is all digits. */
  lemma AllDigitsCons(ds: string)
    requires |ds| > 0
    ensures AllDigits(ds) <==> IsDigit(ds[0]) && AllDigits(ds[1..])
  {
    if IsDigit(ds[0]) && AllDigits(ds[1..]) {
      forall i | 0 <= i < |ds| ensures IsDigit(ds[i]) {
        if i > 0 { assert ds[i] == ds[1..][i - 1]; }
      }
    }
  }

  lemma ShiftDigit(acc: nat, d: nat, p: nat)
    ensures (acc * 10 + d) * p == acc * (10 * p) + d * p
  {
  }

  /** The digit loop yields the numeral's value exactly when every byte is a digit. */
  lemma {:induction false} ScanDigitsValue(ds: string, acc: nat)
    ensures ScanDigits(ds, acc) == if AllDigits(ds) then Some(acc * Pow10(|ds|) + DecimalValue(ds)) else None
    decreases |ds|
  {
    if ds != [] {
      AllDigitsCons(ds);
      if IsDigit(ds[0]) {
        var d := DigitValue(ds[0]);
        ScanDigitsValue(ds[1..], acc * 10 + d);
        if AllDigits(ds) {
          DecimalValueFront(ds);
          ShiftDigit(acc, d, Pow10(|ds| - 1));
        }
      }
    }
  }

  /**
   * `strconv.Atoi`: the sign is stripped, the digits are scanned left to
   * right, the sign is applied, and a value outside the 64-bit range is an
   * error. The result is the value of the numeral exactly when the string has
   * integer syntax and that value fits in 64 bits.
   */
  function Atoi(s: string): (r: Option<int>)
    ensures r.Some? <==> IsIntSyntax(s) && InInt64(SyntaxValue(s))
    ensures r.Some? ==> r.value == SyntaxValue(s)
  {
    if |s| == 0 then None
    else
      var digits := Unsigned(s);
      if |digits| == 0 then None
      else
        ScanDigitsValue(digits, 0);
        match ScanDigits(digits, 0)
        case None => None
        case Some(u) =>
          var n: int := if s[0] == '-' then -(u as int) else u;
          if InInt64(n) then Some(n) else None
  }

  /** The ids the servers accept: Atoi succeeds and the value is positive. */
  predicate IsPositiveId(s: string) {
    Atoi(s).Some? && Atoi(s).value > 0
  }

  /** The decimal digits of a natural number, most significant first, no leading zeros. */
  function NatDigits(n: nat): string
    decreases n
  {
    if n < 10 then [DigitChar(n)] else NatDigits(n / 10) + [DigitChar(n % 10)]
  }

  lemma {:induction false} NatDigitsValue(n: nat)
    ensures |NatDigits(n)| > 0 && AllDigits(NatDigits(n)) && DecimalValue(NatDigits(n)) == n
    decreases n
  {
    var s := NatDigits(n);
    if n >= 10 {
      NatDigitsValue(n / 10);
      assert s[..|s| - 1] == NatDigits(n / 10);
    }
  }

  /** The digits of a natural number start with `0` only for zero itself. */
  lemma {:induction false} NatDigitsLeading(n: nat)
    ensures NatDigits(n)[0] == '0' ==> n == 0
    decreases n
  {
    if n >= 10 {
      NatDigitsLeading(n / 10);
      assert NatDigits(n)[0] == NatDigits(n / 10)[0];
    }
  }

  /**
   * `strconv.Itoa`: the decimal form of `n`, with a leading `-` exactly when
   * it is negative and no leading zero except in "0". It is a numeral of
   * integer syntax denoting `n`.
   */
  function Itoa(n: int): (s: string)
    ensures IsIntSyntax(s) && SyntaxValue(s) == n
    ensures s[0] != '+'
    ensures s[0] == '-' <==> n < 0
    ensures Unsigned(s)[0] == '0' ==> s == "0"
  {
    if n < 0 then
      NatDigitsValue(-n);
      NatDigitsLeading(-n);
      assert ("-" + NatDigits(-n))[1..] == NatDigits(-n);
      "-" + NatDigits(-n)
    else
      NatDigitsValue(n);
      NatDigitsLeading(n);
      NatDigits(n)
  }

  /** Parsing the decimal form of a 64-bit integer gives the integer back. */
  lemma AtoiItoa(n: int)
    requires InInt64(n)
    ensures Atoi(Itoa(n)) == Some(n)
  {
  }

  /** Distinct integers have distinct decimal forms. */
  lemma ItoaInjective(m: int, n: int)
    requires InInt64(m) && InInt64(n) && Itoa(m) == Itoa(n)
    ensures m == n
  {
    AtoiItoa(m);
    AtoiItoa(n);
  }

  /** The number of bytes UTF-8 uses for one character. */
  function Utf8Width(c: char): (w: nat)
    ensures 1 <= w <= 4
    ensures w == 1 <==> (c as int) < 0x80
  {
    if (c as int) < 0x80 then 1
    else if (c as int) < 0x800 then 2
    else if (c as int) < 0x1_0000 then 3
    else 4
  }

  /**
   * Go's `len` on a string: its length in bytes once encoded in UTF-8. It is
   * at least the number of characters and equals it exactly for ASCII text.
   */
  function ByteLength(s: string): (n: nat)
    ensures |s| <= n <= 4 * |s|
    ensures n == |s| <==> forall i :: 0 <= i < |s| ==> (s[i] as int) < 0x80
    decreases |s|
  {
    if s == [] then 0
    else
      var init := s[..|s| - 1];
      assert forall i :: 0 <= i < |init| ==> init[i] == s[i];
      ByteLength(init) + Utf8Width(s[|s| - 1])
  }
}
