/**
 * Integer text conversions the decoder and the Display impls rely on:
 * `u64::from_str_radix` (and `str::parse::<u64>`, which is radix 10),
 * and the `{:x}` / `{}` / `{:02}` renderings of unsigned integers.
 */
module Radix {
  import opened ProcError

  /** 2^64: the first value that does not fit a `u64`. */
  const U64_LIMIT: nat := 0x1_0000_0000_0000_0000

  type u64 = x: int | 0 <= x < U64_LIMIT

  /** Digit value of a character as `char::to_digit` sees it (36 or more: not a digit in any radix). */
  function DigitOf(c: char): nat
  {
    if '0' <= c <= '9' then c as nat - '0' as nat
    else if 'a' <= c <= 'z' then c as nat - 'a' as nat + 10
    else if 'A' <= c <= 'Z' then c as nat - 'A' as nat + 10
    else 36
  }

  predicate IsDigit(c: char, radix: nat)
  {
    DigitOf(c) < radix
  }

  predicate AllDigits(s: string, radix: nat)
  {
    forall i :: 0 <= i < |s| ==> IsDigit(s[i], radix)
  }

  /** The number a digit string denotes, most significant digit first, without any width bound. */
  function Value(s: string, radix: nat): nat
    requires AllDigits(s, radix)
  {
    if s == [] then 0 else Value(s[..|s| - 1], radix) * radix + DigitOf(s[|s| - 1])
  }

  /** The token converts to a `u64`: non-empty, all digits, and below 2^64. */
  predicate Fits(s: string, radix: nat)
  {
    s != [] && AllDigits(s, radix) && Value(s, radix) < U64_LIMIT
  }

  lemma ValueStep(s: string, i: nat, radix: nat)
    requires i < |s| && AllDigits(s, radix)
    ensures AllDigits(s[..i], radix) && AllDigits(s[..i + 1], radix)
    ensures Value(s[..i + 1], radix) == Value(s[..i], radix) * radix + DigitOf(s[i])
  {
    assert s[..i + 1][..i] == s[..i];
  }

  lemma ScaleGrows(a: nat, radix: nat)
    requires radix >= 1
    ensures a <= a * radix
  {
    assert a * radix == a + a * (radix - 1);
  }

  /** A prefix of a digit string never denotes more than the whole string. */
  lemma {:induction false} PrefixValueBounded(s: string, i: nat, radix: nat)
    requires i <= |s| && AllDigits(s, radix) && radix >= 1
    ensures AllDigits(s[..i], radix)
    ensures Value(s[..i], radix) <= Value(s, radix)
    decreases |s| - i
  {
    if i < |s| {
      PrefixValueBounded(s, i + 1, radix);
      ValueStep(s, i, radix);
      ScaleGrows(Value(s[..i], radix), radix);
    } else {
      assert s[..i] == s;
    }
  }

  /**
   * The digit loop of `from_str_radix`: digits are taken left to right and
   * accumulated with checked arithmetic; a non-digit or an accumulator that
   * leaves the `u64` range stops the conversion with an error.
   */
  function Accumulate(s: string, radix: nat, i: nat, acc: u64): (r: Result<u64>)
    requires 2 <= radix <= 36 && i <= |s|
    requires AllDigits(s[..i], radix) && acc == Value(s[..i], radix)
    ensures r.Ok? <==> AllDigits(s, radix) && Value(s, radix) < U64_LIMIT
    ensures r.Ok? ==> r.value == Value(s, radix)
    ensures r.Err? ==> r.error == WidthError
    decreases |s| - i
  {
    if i == |s| then
      assert s[..i] == s;
      Ok(acc)
    else if !IsDigit(s[i], radix) then
      Err(WidthError)
    else
      var next := acc * radix + DigitOf(s[i]);
      assert s[..i + 1][..i] == s[..i];
      if next >= U64_LIMIT then
        assert AllDigits(s, radix) ==> Value(s, radix) >= U64_LIMIT by {
          if AllDigits(s, radix) {
            PrefixValueBounded(s, i + 1, radix);
          }
        }
        Err(WidthError)
      else
        Accumulate(s, radix, i + 1, next)
  }

  /**
   * `u64::from_str_radix(s, radix)`, with every `ParseIntError` (empty,
   * invalid digit, overflow) surfacing as the crate's `WidthError`.
   */
  function FromStrRadix(s: string, radix: nat): (r: Result<u64>)
    requires 2 <= radix <= 36
    ensures r.Ok? <==> Fits(s, radix)
    ensures r.Ok? ==> r.value == Value(s, radix)
    ensures r.Err? ==> r.error == WidthError
  {
    if s == [] then Err(WidthError) else Accumulate(s, radix, 0, 0)
  }

  /** The lowercase digit for `d`, as `{:x}` and `{}` print it. */
  function DigitChar(d: nat): (c: char)
    requires d < 16
    ensures DigitOf(c) == d
    ensures c in "0123456789abcdef"
  {
    "0123456789abcdef"[d]
  }

  /** `n` in the given radix, most significant digit first, lowercase, without padding. */
  function ToRadixString(n: nat, radix: nat): (s: string)
    requires 2 <= radix <= 16
    ensures |s| >= 1 && AllDigits(s, radix)
    ensures Value(s, radix) == n
    ensures forall i :: 0 <= i < |s| ==> s[i] in "0123456789abcdef"
    ensures |s| > 1 ==> s[0] != '0'
    decreases n
  {
    if n < radix then
      ValueAppend([], DigitChar(n), radix);
      [DigitChar(n)]
    else
      var q, d := n / radix, n % radix;
      DivMod(n, radix);
      var prefix := ToRadixString(q, radix);
      AppendDigit(prefix, q, d, radix);
      prefix + [DigitChar(d)]
  }

  /** The step of `ToRadixString`: one more low-order digit keeps every property of its contract. */
  lemma AppendDigit(prefix: string, q: nat, d: nat, radix: nat)
    requires 2 <= radix <= 16 && 1 <= q && d < radix
    requires |prefix| >= 1 && AllDigits(prefix, radix) && Value(prefix, radix) == q
    requires forall i :: 0 <= i < |prefix| ==> prefix[i] in "0123456789abcdef"
    requires |prefix| > 1 ==> prefix[0] != '0'
    ensures var s := prefix + [DigitChar(d)];
      && AllDigits(s, radix) && Value(s, radix) == q * radix + d
      && (forall i :: 0 <= i < |s| ==> s[i] in "0123456789abcdef")
      && s[0] != '0'
  {
    var c := DigitChar(d);
    var s := prefix + [c];
    ValueAppend(prefix, c, radix);
    assert s[0] != '0' by {
      if |prefix| == 1 { assert DigitOf(prefix[0]) == q; }
    }
    forall i | 0 <= i < |s| ensures s[i] in "0123456789abcdef" {
      if i < |prefix| { assert s[i] == prefix[i]; }
    }
  }

  lemma ValueAppend(prefix: string, c: char, radix: nat)
    requires AllDigits(prefix, radix) && IsDigit(c, radix)
    ensures AllDigits(prefix + [c], radix)
    ensures Value(prefix + [c], radix) == Value(prefix, radix) * radix + DigitOf(c)
  {
    var s := prefix + [c];
    assert s[..|s| - 1] == prefix;
    forall i | 0 <= i < |s| ensures IsDigit(s[i], radix) {
      if i < |prefix| { assert s[i] == prefix[i]; }
    }
  }

  lemma DivMod(n: nat, radix: nat)
    requires 2 <= radix <= n
    ensures (n / radix) * radix + n % radix == n && 1 <= n / radix < n && 0 <= n % radix < radix
  {
  }

  /** `{:x}`: lowercase hex digits without padding. */
  function LowerHex(n: nat): (s: string)
    ensures |s| >= 1 && AllDigits(s, 16) && Value(s, 16) == n
    ensures forall i :: 0 <= i < |s| ==> s[i] in "0123456789abcdef"
    ensures |s| > 1 ==> s[0] != '0'
  {
    ToRadixString(n, 16)
  }

  /** `{}` on an unsigned integer: decimal digits without padding. */
  function Decimal(n: nat): (s: string)
    ensures |s| >= 1 && AllDigits(s, 10) && Value(s, 10) == n
    ensures |s| > 1 ==> s[0] != '0'
  {
    ToRadixString(n, 10)
  }

  function Zeros(k: nat): (z: string)
    ensures |z| == k && forall i :: 0 <= i < k ==> z[i] == '0'
  {
    seq(k, _ => '0')
  }

  /** Left-padding with `'0'` to at least `width` characters, as the `0` flag of a format spec does. */
  function ZeroPad(s: string, width: nat): (p: string)
    ensures |p| == if |s| < width then width else |s|
    ensures p[|p| - |s|..] == s
    ensures forall i :: 0 <= i < |p| - |s| ==> p[i] == '0'
  {
    if |s| < width then Zeros(width - |s|) + s else s
  }

  /** Leading zeros do not change the value a digit string denotes. */
  lemma {:induction false} LeadingZerosValue(k: nat, s: string, radix: nat)
    requires 2 <= radix <= 36 && AllDigits(s, radix)
    ensures AllDigits(Zeros(k) + s, radix)
    ensures Value(Zeros(k) + s, radix) == Value(s, radix)
    decreases |s|
  {
    var t := Zeros(k) + s;
    assert AllDigits(t, radix) by {
      forall i | 0 <= i < |t| ensures IsDigit(t[i], radix) {
        if i >= k { assert t[i] == s[i - k]; }
      }
    }
    if s == [] {
      ZerosValue(k, radix);
      assert t == Zeros(k);
    } else {
      var init := s[..|s| - 1];
      LeadingZerosValue(k, init, radix);
      assert t[..|t| - 1] == Zeros(k) + init;
    }
  }

  lemma {:induction false} ZerosValue(k: nat, radix: nat)
    requires 2 <= radix <= 36
    ensures AllDigits(Zeros(k), radix) && Value(Zeros(k), radix) == 0
  {
    if k > 0 {
      ZerosValue(k - 1, radix);
      assert Zeros(k)[..k - 1] == Zeros(k - 1);
    }
  }

  /** `{:02}` on an unsigned integer: at least two decimal digits, denoting `n`. */
  lemma PaddedDecimal(n: nat)
    ensures var p := ZeroPad(Decimal(n), 2);
      |p| >= 2 && AllDigits(p, 10) && Value(p, 10) == n
      && (n < 10 ==> |p| == 2 && p[0] == '0')
  {
    var s := Decimal(n);
    if |s| < 2 {
      LeadingZerosValue(2 - |s|, s, 10);
    }
  }

  function Pow(base: nat, k: nat): nat
  {
    if k == 0 then 1 else base * Pow(base, k - 1)
  }

  /** A digit string of length k denotes less than radix^k. */
  lemma {:induction false} ValueBelowPow(s: string, radix: nat)
    requires 2 <= radix <= 36 && AllDigits(s, radix)
    ensures Value(s, radix) < Pow(radix, |s|)
  {
    if s != [] {
      var init := s[..|s| - 1];
      ValueBelowPow(init, radix);
      var v, p, d := Value(init, radix), Pow(radix, |init|), DigitOf(s[|s| - 1]);
      assert Value(s, radix) == v * radix + d;
      assert Pow(radix, |s|) == radix * p;
      MulMonotone(v + 1, p, radix);
      MulSucc(v, radix);
      MulComm(p, radix);
    }
  }

  /** A digit string of length k with a non-zero leading digit denotes at least radix^(k-1). */
  lemma {:induction false} ValueAtLeastPow(s: string, radix: nat)
    requires 2 <= radix <= 36 && AllDigits(s, radix) && s != [] && s[0] != '0'
    ensures Value(s, radix) >= Pow(radix, |s| - 1)
  {
    var init := s[..|s| - 1];
    if init == [] {
      assert DigitOf(s[0]) >= 1;
    } else {
      assert init[0] == s[0];
      ValueAtLeastPow(init, radix);
      var v, p := Value(init, radix), Pow(radix, |init| - 1);
      assert Value(s, radix) >= v * radix;
      MulMonotone(p, v, radix);
      MulComm(p, radix);
      assert Pow(radix, |s| - 1) == radix * p;
    }
  }

  lemma MulSucc(a: nat, k: nat)
    ensures (a + 1) * k == a * k + k
  {
  }

  lemma MulComm(a: nat, k: nat)
    ensures a * k == k * a
  {
  }

  lemma MulMonotone(a: nat, b: nat, k: nat)
    requires a <= b
    ensures a * k <= b * k
  {
  }

  lemma HexLimit()
    ensures Pow(16, 16) == U64_LIMIT
  {
    assert Pow(16, 4) == 0x1_0000;
    assert Pow(16, 8) == 0x1_0000_0000;
    assert Pow(16, 12) == 0x1_0000_0000_0000;
  }

  /**
   * With no leading zero, a hex token fits a `u64` exactly when it has at
   * most 16 digits: 17 or more significant digits are a width failure, never
   * a truncation.
   */
  lemma HexFitsIffAtMost16Digits(s: string)
    requires s != [] && AllDigits(s, 16) && s[0] != '0'
    ensures Fits(s, 16) <==> |s| <= 16
  {
    HexLimit();
    if |s| <= 16 {
      ValueBelowPow(s, 16);
      PowMonotone(16, |s|, 16);
    } else {
      ValueAtLeastPow(s, 16);
      PowMonotone(16, 16, |s| - 1);
    }
  }

  lemma {:induction false} PowMonotone(base: nat, j: nat, k: nat)
    requires 1 <= base && j <= k
    ensures Pow(base, j) <= Pow(base, k)
    decreases k
  {
    if j < k {
      PowMonotone(base, j, k - 1);
      MulMonotone(1, base, Pow(base, k - 1));
    }
  }
}
