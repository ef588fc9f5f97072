/** Amounts: 64-bit arithmetic that has to come out as if it were not. */
module Amounts {
  import opened Sides

  const U32 := 0x1_0000_0000
  const U64 := 0x1_0000_0000_0000_0000
  const MILLION := 1_000_000
  const EXCHANGE_RATE_SCALE := 100_000_000

  type u32 = n: int | 0 <= n < U32
  type u64 = n: int | 0 <= n < U64

  // ---- Multiply, add and divide through 128 bits

  function Pow2(n: nat): (r: nat)
    ensures r > 0
  {
    if n == 0 then 1 else 2 * Pow2(n - 1)
  }

  lemma MulMonotone(a: int, b: int, c: int)
    requires a <= b && 0 <= c
    ensures a * c <= b * c
  {
    assert 0 <= (b - a) * c;
  }

  lemma Pow2Of64()
    ensures Pow2(64) == U64
  {
    assert Pow2(8) == 0x100;
    hide Pow2;
    Pow2Sum(8, 8);
    Pow2Sum(16, 16);
    Pow2Sum(32, 32);
  }

  lemma {:induction false} Pow2Sum(a: nat, b: nat)
    ensures Pow2(a + b) == Pow2(a) * Pow2(b)
  {
    if a > 0 { Pow2Sum(a - 1, b); }
  }

  /** The product of two 64-bit numbers from four 32-bit products, in two 64-bit words. */
  method Product(a: u64, b: u64) returns (hi: u64, lo: u64)
    ensures hi * U64 + lo == a * b
  {
    var aLo, aHi := a % U32, a / U32;
    var bLo, bHi := b % U32, b / U32;
    PartialProduct(aLo, bLo);
    PartialProduct(aLo, bHi);
    PartialProduct(aHi, bLo);
    PartialProduct(aHi, bHi);
    var ll, lh, hl, hh := aLo * bLo, aLo * bHi, aHi * bLo, aHi * bHi;
    assert a * b == hh * U64 + (lh + hl) * U32 + ll by {
      assert a == aHi * U32 + aLo && b == bHi * U32 + bLo;
      Distribute(aHi, aLo, bHi, bLo);
    }
    HighWordFits(a, b, hh, lh, hl, ll);
    var mid := ll / U32 + lh % U32 + hl % U32;
    lo := ll % U32 + mid * U32 % U64;
    hi := hh + lh / U32 + hl / U32 + mid / U32;
  }

  lemma PartialProduct(x: int, y: int)
    requires 0 <= x < U32 && 0 <= y < U32
    ensures 0 <= x * y <= (U32 - 1) * (U32 - 1)
  {
    MulMonotone(y, U32 - 1, x);
    MulMonotone(0, x, y);
    assert y * x <= (U32 - 1) * x <= (U32 - 1) * (U32 - 1);
  }

  lemma Distribute(aHi: int, aLo: int, bHi: int, bLo: int)
    ensures (aHi * U32 + aLo) * (bHi * U32 + bLo) == aHi * bHi * U64 + (aLo * bHi + aHi * bLo) * U32 + aLo * bLo
  {
    calc {
      (aHi * U32 + aLo) * (bHi * U32 + bLo);
      aHi * U32 * (bHi * U32) + aHi * U32 * bLo + aLo * (bHi * U32) + aLo * bLo;
      aHi * bHi * (U32 * U32) + aHi * bLo * U32 + aLo * bHi * U32 + aLo * bLo;
    }
  }

  lemma ShiftedWord(mid: nat)
    ensures mid * U32 % U64 == mid % U32 * U32
  {
    var q, r := mid / U32, mid % U32;
    assert mid * U32 == q * U64 + r * U32;
    RemainderIs(mid * U32, q, U64, r * U32);
  }

  lemma RemainderIs(n: int, q: int, d: int, r: int)
    requires n == q * d + r && 0 <= r < d
    ensures n % d == r
  {
    DivideIs(n, q, d, r);
  }

  lemma ProductFits(a: u64, b: u64)
    ensures 0 <= a * b <= (U64 - 1) * (U64 - 1)
  {
    MulMonotone(b, U64 - 1, a);
    MulMonotone(0, a, b);
    assert b * a <= (U64 - 1) * a <= (U64 - 1) * (U64 - 1);
  }

  /** The words add up to the product, and the high one does not wrap. */
  lemma HighWordFits(a: u64, b: u64, hh: int, lh: int, hl: int, ll: int)
    requires a * b == hh * U64 + (lh + hl) * U32 + ll && 0 <= hh && 0 <= lh && 0 <= hl && 0 <= ll
    requires ll <= (U32 - 1) * (U32 - 1)
    ensures var mid := ll / U32 + lh % U32 + hl % U32;
            var lo := ll % U32 + mid * U32 % U64;
            var hi := hh + lh / U32 + hl / U32 + mid / U32;
            0 <= lo < U64 && 0 <= hi < U64 && hi * U64 + lo == a * b
  {
    var mid := ll / U32 + lh % U32 + hl % U32;
    var lo := ll % U32 + mid * U32 % U64;
    var hi := hh + lh / U32 + hl / U32 + mid / U32;
    ShiftedWord(mid);
    assert ll == ll / U32 * U32 + ll % U32 && lh == lh / U32 * U32 + lh % U32 && hl == hl / U32 * U32 + hl % U32;
    assert mid == mid / U32 * U32 + mid % U32;
    assert hi * U64 + lo == a * b;
    ProductFits(a, b);
  }

  /** `u64_mul_add_div_portable`: the quotient, or the largest 64-bit number if it does not fit. */
  method MulAddDivPortable(a: u64, b: u64, add: u64, div: u64) returns (q: u64)
    requires div != 0
    ensures q == var exact := (a * b + add) / div; if exact < U64 then exact else U64 - 1
  {
    var hi, lo := Product(a, b);
    SumFits(a, b, add, hi, lo);
    if lo + add >= U64 {
      hi := hi + 1;
    }
    lo := (lo + add) % U64;
    ghost var whole := a * b + add;
    assert hi * U64 + lo == whole;
    if hi >= div {
      Saturates(whole, hi, lo, div);
      return U64 - 1;
    }
    Pow2Of64();
    q := DivideBits(hi, lo, div);
    QuotientFits(whole, hi, lo, div);
  }

  lemma SumFits(a: u64, b: u64, add: u64, hi: u64, lo: u64)
    requires hi * U64 + lo == a * b
    ensures lo + add >= U64 ==> hi + 1 < U64
  {
    ProductFits(a, b);
  }

  lemma Saturates(whole: int, hi: u64, lo: u64, div: u64)
    requires 0 < div <= hi && whole == hi * U64 + lo
    ensures whole / div >= U64
  {
    MulMonotone(div, hi, U64);
    DivideMonotone(U64 * div, whole, div);
    DivideIs(U64 * div, U64, div, 0);
  }

  lemma DivideMonotone(x: int, y: int, d: int)
    requires 0 < d && x <= y
    ensures x / d <= y / d
  {
    var p, q := x / d, y / d;
    assert x == p * d + x % d && y == q * d + y % d;
    if p > q {
      MulMonotone(q + 1, p, d);
      assert false;
    }
  }

  lemma QuotientFits(whole: int, hi: u64, lo: u64, div: u64)
    requires hi < div && whole == hi * U64 + lo
    ensures whole / div < U64
  {
    DivideMonotone(whole, div * U64 - 1, div);
    DivideIs(div * U64 - 1, U64 - 1, div, div - 1);
  }

  /** The division so far: `digits` and `r` are quotient and remainder of all but the last `i` bits. */
  ghost predicate Divided(hi: u64, lo: u64, div: u64, i: nat, digits: nat, r: int) {
    i <= 64 && 0 <= r < div && digits < Pow2(64 - i) && hi * Pow2(64 - i) + lo / Pow2(i) == digits * div + r
  }

  lemma DivideBit(hi: u64, lo: u64, div: u64, i: nat, digits: nat, r: int)
    requires i < 64 && Divided(hi, lo, div, i + 1, digits, r)
    ensures var t := 2 * r + BitOf(lo, i);
            t < 2 * div && if t >= div then Divided(hi, lo, div, i, 2 * digits + 1, t - div)
              else Divided(hi, lo, div, i, 2 * digits, t)
  {
    NextBit(lo, i);
    OneMoreBit(hi, i);
    QuotientBit(digits, i);
    var t := 2 * r + BitOf(lo, i);
    assert hi * Pow2(64 - i) + lo / Pow2(i) == 2 * (digits * div) + t;
    Doubled(digits, div);
  }

  /** The shifted remainder loses its top bit to 64 bits; the subtraction brings it back. */
  lemma CarryBit(r: u64, bit: int, div: u64)
    requires r < div && 0 <= bit < 2
    ensures var t, r' := 2 * r + bit, 2 * r % U64 + bit;
            && 0 <= r' < U64
            && (r >= U64 / 2 || r' >= div <==> t >= div)
            && (if t >= div then (r' - div) % U64 == t - div else r' == t)
  {
  }

  /** The division, a bit of `lo` at a time. */
  method DivideBits(hi: u64, lo: u64, div: u64) returns (q: u64)
    requires hi < div
    ensures q == (hi * U64 + lo) / div
  {
    hide Pow2, Divided, BitOf;
    var r := hi;
    var i: nat := 64;
    ghost var digits: nat := 0;
    q := 0;
    StartDivide(hi, lo, div);
    while i > 0
      invariant 0 <= i <= 64 && 0 <= r < U64 && Divided(hi, lo, div, i, digits, r)
      invariant q == digits * Pow2(i)
    {
      DividedBounds(hi, lo, div, i, digits, r);
      i := i - 1;
      var bit := BitOf(lo, i);
      BitIsBit(lo, i);
      DivideBit(hi, lo, div, i, digits, r);
      QuotientBit(digits, i);
      CarryBit(r, bit, div);
      var carry := r >= U64 / 2;
      r := 2 * r % U64 + bit;
      if carry || r >= div {
        r := (r - div) % U64;
        q := q + Pow2(i);
        digits := 2 * digits + 1;
      } else {
        digits := 2 * digits;
      }
    }
    EndDivide(hi, lo, div, digits, r);
  }

  lemma StartDivide(hi: u64, lo: u64, div: u64)
    requires hi < div
    ensures Divided(hi, lo, div, 64, 0, hi)
  {
    Pow2Of64();
    assert Pow2(0) == 1;
    DivideIs(lo, 0, Pow2(64), lo);
  }

  lemma DividedBounds(hi: u64, lo: u64, div: u64, i: nat, digits: nat, r: int)
    requires Divided(hi, lo, div, i, digits, r)
    ensures i <= 64 && 0 <= r < div && digits < Pow2(64 - i)
  {
  }

  lemma BitIsBit(lo: u64, i: nat)
    requires i < 64
    ensures 0 <= BitOf(lo, i) < 2
  {
  }

  lemma EndDivide(hi: u64, lo: u64, div: u64, digits: nat, r: int)
    requires Divided(hi, lo, div, 0, digits, r)
    ensures digits * Pow2(0) == digits == (hi * U64 + lo) / div
  {
    Pow2Of64();
    assert Pow2(0) == 1 && lo / 1 == lo;
    DivideIs(hi * U64 + lo, digits, div, r);
  }

  function BitOf(lo: u64, i: nat): int
    requires i < 64
  {
    lo / Pow2(i) % 2
  }

  lemma NextBit(lo: u64, i: nat)
    ensures Pow2(i) > 0 && lo / Pow2(i) == 2 * (lo / Pow2(i + 1)) + lo / Pow2(i) % 2
  {
    var p := Pow2(i);
    assert Pow2(i + 1) == 2 * p;
    DivideTwice(lo, p);
  }

  lemma DivideTwice(n: nat, p: nat)
    requires p > 0
    ensures n / p / 2 == n / (2 * p)
  {
    var q := n / p;
    var r := n % p;
    assert n == q * p + r;
    var h := q / 2;
    assert n == h * (2 * p) + (q % 2 * p + r) by {
      assert q == 2 * h + q % 2;
      assert q * p == h * (2 * p) + q % 2 * p;
    }
    assert 0 <= q % 2 * p + r < 2 * p;
    DivideIs(n, h, 2 * p, q % 2 * p + r);
  }

  lemma DivideIs(n: int, q: int, d: int, r: int)
    requires n == q * d + r && 0 <= r < d
    ensures n / d == q
  {
    var q' := n / d;
    assert n == q' * d + n % d;
    if q < q' {
      MulMonotone(q + 1, q', d);
      assert false;
    } else if q' < q {
      MulMonotone(q' + 1, q, d);
      assert false;
    }
  }

  lemma QuotientBit(digits: nat, i: nat)
    requires i < 64 && digits < Pow2(63 - i)
    ensures digits * Pow2(i + 1) == 2 * digits * Pow2(i)
    ensures (2 * digits + 1) * Pow2(i) == digits * Pow2(i + 1) + Pow2(i)
    ensures 2 * digits + 1 < Pow2(64 - i)
    ensures (2 * digits + 1) * Pow2(i) < U64
  {
    var p, rest := Pow2(i), Pow2(64 - i);
    assert Pow2(i + 1) == 2 * p;
    assert rest == 2 * Pow2(63 - i);
    assert rest * p == U64 by {
      hide Pow2;
      Pow2Sum(64 - i, i);
      Pow2Of64();
    }
    hide Pow2;
    Doubled(digits, p);
    BelowProduct(2 * digits + 1, rest, p);
  }

  lemma BelowProduct(n: int, rest: int, p: int)
    requires n < rest && 0 < p
    ensures n * p < rest * p
  {
    MulMonotone(n + 1, rest, p);
  }

  lemma Doubled(n: int, p: int)
    ensures n * (2 * p) == 2 * n * p && (2 * n + 1) * p == n * (2 * p) + p
  {
  }

  lemma OneMoreBit(hi: u64, i: nat)
    requires i < 64
    ensures hi * Pow2(64 - i) == 2 * (hi * Pow2(63 - i))
  {
    assert Pow2(64 - i) == 2 * Pow2(63 - i);
  }

  // ---- Feerates in another asset

  /**
    `feerate_in_asset`: the least feerate in the asset that is worth the reference feerate, as far as 32
    bits go.  A rate of 0 is the reference itself.
   */
  method FeerateInAsset(feerate: u32, rate: u64) returns (v: u32)
    ensures rate == 0 || rate == EXCHANGE_RATE_SCALE ==> v == feerate
    ensures rate != 0 ==> forall n: nat :: n < v ==> n * rate < feerate * EXCHANGE_RATE_SCALE
    ensures rate != 0 && v < U32 - 1 ==> feerate * EXCHANGE_RATE_SCALE <= v * rate
  {
    if rate == 0 { return feerate; }
    ghost var need := feerate * EXCHANGE_RATE_SCALE;
    if rate == EXCHANGE_RATE_SCALE {
      forall n: nat | n < feerate ensures n * rate < need {
        MulMonotone(n + 1, feerate, rate);
      }
      return feerate;
    }
    var q := MulAddDivPortable(feerate, EXCHANGE_RATE_SCALE, rate - 1, rate);
    ghost var least := (need + (rate - 1)) / rate;
    RoundsUp(need, rate);
    v := if q > U32 - 1 then U32 - 1 else q;
    forall n: nat | n < v ensures n * rate < need {
      MulMonotone(n, least - 1, rate);
    }
  }

  /** Dividing with the divisor less one added rounds up. */
  lemma RoundsUp(need: nat, rate: nat)
    requires rate > 0
    ensures var least := (need + (rate - 1)) / rate;
            need <= least * rate && (0 < least ==> (least - 1) * rate < need)
  {
    var least := (need + (rate - 1)) / rate;
    assert need + (rate - 1) == least * rate + (need + (rate - 1)) % rate;
  }

  // ---- Fees

  /** `amount_msat_mul_div`, in 64 bits, where the product of `mul` and `div` fits. */
  function MulDiv(x: u64, mul: u64, div: u64): u64
    requires 0 < div && mul * div < U64
  {
    (mul * (x / div) % U64 + mul * (x % div) % U64 / div) % U64
  }

  /** Multiplying quotient and remainder apart. */
  lemma SplitProduct(x: nat, mul: nat, div: nat, q: nat, r: nat)
    requires 0 < div && x == q * div + r && r < div
    ensures x * mul / div == mul * q + mul * r / div
  {
    var t := mul * r;
    assert x * mul == mul * q * div + t by {
      assert x * mul == (q * div + r) * mul;
      Regroup(q, div, r, mul);
    }
    assert t == t / div * div + t % div;
    assert x * mul == (mul * q + t / div) * div + t % div by {
      Spread(mul * q, t / div, div);
    }
    DivideIs(x * mul, mul * q + t / div, div, t % div);
  }

  lemma Regroup(q: int, d: int, r: int, m: int)
    ensures (q * d + r) * m == m * q * d + m * r
  {
  }

  lemma Spread(a: int, b: int, d: int)
    ensures (a + b) * d == a * d + b * d
  {
  }

  /** It is the exact quotient, less whole multiples of 2^64: exact if and only if the quotient fits. */
  lemma MulDivIsExact(x: u64, mul: u64, div: u64)
    requires 0 < div && mul * div < U64
    ensures MulDiv(x, mul, div) == x * mul / div % U64
    ensures MulDiv(x, mul, div) == x * mul / div <==> x * mul / div < U64
  {
    var q, r := x / div, x % div;
    SplitProduct(x, mul, div, q, r);
    MulMonotone(r, div, mul);
    MulMonotone(0, r, mul);
    SmallModulo(mul * r);
    AddModulo(mul * q, mul * r / div);
    MulMonotone(0, x, mul);
    NaturalQuotient(x * mul, div);
    SmallModulo(x * mul / div);
  }

  lemma NaturalQuotient(n: int, d: int)
    requires 0 <= n && 0 < d
    ensures 0 <= n / d
  {
  }

  lemma SmallModulo(n: int)
    ensures n % U64 == n <==> 0 <= n < U64
  {
  }

  lemma AddModulo(a: int, b: int)
    ensures (a % U64 + b) % U64 == (a + b) % U64
  {
  }

  /** `amount_msat_fee`, or nothing if it overflows. */
  function FeeOf(amount: u64, base: u32, prop: u32): Option<u64> {
    var proportional := MulDiv(amount, prop, MILLION);
    if base + proportional >= U64 then None else Some(base + proportional)
  }

  /** `within_fee`. */
  predicate WithinFee(given: u64, out: u64, base: u32, prop: u32) {
    var fee := FeeOf(out, base, prop);
    fee.Some? && out + fee.value < U64 && out + fee.value <= given
  }

  /** What an output costs with its fee, in plain numbers. */
  function WithFee(out: nat, base: nat, prop: nat): nat {
    out + base + out * prop / MILLION
  }

  /** Crash is the failing assert, or the division by zero. */
  datatype SubFeeResult = Crash | Out(msat: u64)

  /** `amount_msat_sub_fee`.  The divisor is computed in 32 bits. */
  function SubFee(given: u64, base: u32, prop: u32): SubFeeResult {
    if given < base then Out(0)
    else
      var div := (MILLION + prop) % U32;
      if div == 0 then Crash
      else
        var out := MulDiv(given - base, MILLION, div);
        if !WithinFee(given, out, base, prop) then Crash
        else if out + 1 < U64 && WithinFee(given, out + 1, base, prop) then Out(out + 1)
        else Out(out)
  }

  /** An output and its proportional fee are one quotient. */
  lemma WithFeeIs(out: nat, base: nat, prop: nat)
    ensures WithFee(out, base, prop) == base + out * (MILLION + prop) / MILLION
  {
    assert out * (MILLION + prop) == out * MILLION + out * prop;
    var t := out * prop;
    assert t == t / MILLION * MILLION + t % MILLION;
    DivideIs(out * MILLION + t, out + t / MILLION, MILLION, t % MILLION);
  }

  /**
    The fee is computed modulo 2^64: it is the plain one if and only if that fits, or adding the base overflows after
    all.
   */
  lemma FeeIsExactIff(amount: u64, base: u32, prop: u32)
    ensures var plain := amount * prop / MILLION;
            FeeOf(amount, base, prop) == (if base + plain < U64 then Some(base + plain) else None) <==>
            plain < U64 || base + plain % U64 >= U64
  {
    hide MulDiv;
    MulDivIsExact(amount, prop, MILLION);
    MulMonotone(0, amount, prop);
    NaturalQuotient(amount * prop, MILLION);
  }

  /**
    So is the comparison: it is right about every amount given if and only if the proportional fee fits in 64 bits, or
    its remainder is still too much.
   */
  lemma ComparisonIsRightIff(out: u64, base: u32, prop: u32)
    ensures (forall given: u64 :: WithinFee(given, out, base, prop) <==> WithFee(out, base, prop) <= given) <==>
            out * prop / MILLION < U64 || out + base + out * prop / MILLION % U64 >= U64
  {
    hide MulDiv;
    MulDivIsExact(out, prop, MILLION);
    MulMonotone(0, out, prop);
    NaturalQuotient(out * prop, MILLION);
    var wrapped := out + base + out * prop / MILLION % U64;
    if out * prop / MILLION >= U64 && wrapped < U64 {
      assert WithinFee(U64 - 1, out, base, prop) && U64 - 1 < WithFee(out, base, prop);
    }
  }

  /** The code's comparison is the plain one where the proportional fee fits in 64 bits. */
  lemma WithinFeeIs(given: u64, out: u64, base: u32, prop: u32)
    requires out * prop / MILLION < U64
    ensures WithinFee(given, out, base, prop) <==> WithFee(out, base, prop) <= given
  {
    MulDivIsExact(out, prop, MILLION);
  }

  /** The first guess fits, its successor's fee does not wrap, and anything beyond that is too much. */
  lemma GuessIsClose(n: u64, prop: u32, guess: nat)
    requires guess == n * MILLION / (MILLION + prop)
    ensures guess <= n && guess * prop / MILLION <= n && guess * (MILLION + prop) / MILLION <= n
    ensures (guess + 1) * prop / MILLION < U64
    ensures forall o: nat :: guess + 2 <= o ==> n < WithFee(o, 0, prop)
  {
    var d := MILLION + prop;
    assert n * MILLION == guess * d + n * MILLION % d;
    assert guess * d == guess * MILLION + guess * prop;
    assert 0 <= guess * prop by { MulMonotone(0, guess, prop); }
    DivideMonotone(guess * d, n * MILLION, MILLION);
    DivideMonotone(guess * prop, guess * d, MILLION);
    SuccessorFits(n, prop, guess);
    hide WithFee;
    forall o: nat | guess + 2 <= o ensures n < WithFee(o, 0, prop) {
      WithFeeIs(o, 0, prop);
      MulMonotone(guess + 2, o, d);
      assert (guess + 2) * d == guess * d + 2 * d;
      DivideMonotone((n + 1) * MILLION, o * d, MILLION);
    }
  }

  lemma SuccessorFits(n: u64, prop: u32, guess: nat)
    requires guess * MILLION + guess * prop < (n + 1) * MILLION
    ensures (guess + 1) * prop / MILLION < U64
  {
    assert (guess + 1) * prop == guess * prop + prop;
    if guess < 4295 {
      MulMonotone(guess, 4295, prop);
    }
    assert (guess + 1) * prop < U64 * MILLION;
    DivideMonotone((guess + 1) * prop, U64 * MILLION - 1, MILLION);
  }

  /** What the first guess is worth. */
  lemma GuessFacts(given: u64, base: u32, prop: u32)
    requires base <= given && prop <= U32 - 1 - MILLION
    ensures var guess := MulDiv(given - base, MILLION, MILLION + prop);
            && WithinFee(given, guess, base, prop) && WithFee(guess, base, prop) <= given
            && (guess + 1 < U64 ==>
               (WithinFee(given, guess + 1, base, prop) <==> WithFee(guess + 1, base, prop) <= given))
            && forall o: nat :: guess + 2 <= o ==> given < WithFee(o, base, prop)
  {
    hide MulDiv, WithFee, WithinFee;
    var n := given - base;
    MulDivIsExact(n, MILLION, MILLION + prop);
    NaturalQuotient(n * MILLION, MILLION + prop);
    var guess := n * MILLION / (MILLION + prop);
    GuessIsClose(n, prop, guess);
    assert guess < U64;
    WithFeeIs(guess, base, prop);
    WithinFeeIs(given, guess, base, prop);
    if guess + 1 < U64 { WithinFeeIs(given, guess + 1, base, prop); }
    forall o: nat | guess + 2 <= o ensures given < WithFee(o, base, prop) {
      WithFeeBase(o, base, prop);
    }
  }

  /**
    The fee inversion is optimal: what it returns fits with its fee, and nothing larger does.  The assert
    in it never fires.
   */
  lemma SubFeeIsOptimal(given: u64, base: u32, prop: u32)
    requires base <= given && prop <= U32 - 1 - MILLION
    ensures var r := SubFee(given, base, prop);
            && r.Out?
            && WithFee(r.msat, base, prop) <= given
            && forall o: nat :: r.msat < o ==> given < WithFee(o, base, prop)
  {
    hide MulDiv, WithFee, WithinFee;
    GuessFacts(given, base, prop);
    assert (MILLION + prop) % U32 == MILLION + prop;
    var guess := MulDiv(given - base, MILLION, MILLION + prop);
    if guess == U64 - 1 { WithFeeIsMore(U64, base, prop); }
  }

  lemma WithFeeBase(o: nat, base: nat, prop: nat)
    ensures WithFee(o, base, prop) == base + WithFee(o, 0, prop)
  {
  }

  lemma WithFeeIsMore(o: nat, base: nat, prop: nat)
    ensures o <= WithFee(o, base, prop)
  {
    MulMonotone(0, o, prop);
    NaturalQuotient(o * prop, MILLION);
  }

  /** What the caller wants: the largest output that fits with its fee. */
  ghost predicate IsLargest(r: SubFeeResult, given: u64, base: u32, prop: u32) {
    && r.Out?
    && WithFee(r.msat, base, prop) <= given
    && forall o: nat :: r.msat < o ==> given < WithFee(o, base, prop)
  }

  /** What that output is, in plain numbers: the quotient, or one more. */
  function Largest(n: nat, prop: nat): nat {
    var guess := n * MILLION / (MILLION + prop);
    if WithFee(guess + 1, 0, prop) <= n then guess + 1 else guess
  }

  lemma LargestIs(given: u64, base: u32, prop: u32)
    requires base <= given
    ensures var best := Largest(given - base, prop);
            && best < U64 && WithFee(best, base, prop) <= given
            && forall o: nat :: best < o ==> given < WithFee(o, base, prop)
  {
    hide WithFee;
    var n := given - base;
    var guess := n * MILLION / (MILLION + prop);
    NaturalQuotient(n * MILLION, MILLION + prop);
    GuessIsClose(n, prop, guess);
    WithFeeIs(guess, 0, prop);
    var best := Largest(n, prop);
    WithFeeBase(best, base, prop);
    WithFeeIsMore(best, 0, prop);
    forall o: nat | best < o ensures given < WithFee(o, base, prop) {
      WithFeeBase(o, base, prop);
    }
  }

  /** The comparison is right for every output up to the largest, and for the next. */
  lemma RightUpToLargest(given: u64, base: u32, prop: u32, best: u64, out: u64)
    requires base <= given && WithFee(best, base, prop) <= given < WithFee(best + 1, base, prop) && out <= best + 1
    ensures WithinFee(given, out, base, prop) <==> out <= best
  {
    var n := given - base;
    MulMonotone(0, best, prop);
    var t := best * prop;
    assert t == t / MILLION * MILLION + t % MILLION;
    SuccessorFits(n, prop, best);
    MulMonotone(out, best + 1, prop);
    DivideMonotone(out * prop, (best + 1) * prop, MILLION);
    WithinFeeIs(given, out, base, prop);
    if out <= best {
      MulMonotone(out, best, prop);
      DivideMonotone(out * prop, best * prop, MILLION);
    }
  }

  /**
    For any proportional fee, wrapped divisor or not: the code returns the largest output if and only if it
    divides by something and its first guess is that output or one less.
   */
  lemma SubFeeIsRightIff(given: u64, base: u32, prop: u32)
    requires base <= given
    ensures var div := (MILLION + prop) % U32;
            IsLargest(SubFee(given, base, prop), given, base, prop) <==>
            div != 0 && 0 <= Largest(given - base, prop) - MulDiv(given - base, MILLION, div) <= 1
  {
    hide MulDiv, WithFee, WithinFee, Largest;
    var div := (MILLION + prop) % U32;
    var best := Largest(given - base, prop);
    LargestIs(given, base, prop);
    if div != 0 {
      var guess := MulDiv(given - base, MILLION, div);
      if best == guess || best == guess + 1 {
        RightUpToLargest(given, base, prop, best, guess);
        if guess + 1 < U64 { RightUpToLargest(given, base, prop, best, guess + 1); }
      }
    }
  }

  /**
    With a larger proportional fee the divisor has wrapped.  For any amount whose quotient by it still fits
    in 64 bits the code then fails, unless there is nothing left after the base fee.
   */
  lemma SubFeeWorksIff(given: u64, base: u32, prop: u32)
    requires base <= given
    requires var div := (MILLION + prop) % U32; div == 0 || (given - base) * MILLION / div < U64
    ensures var works := prop <= U32 - 1 - MILLION || (given == base && prop != U32 - MILLION);
            && (IsLargest(SubFee(given, base, prop), given, base, prop) <==> works)
            && (SubFee(given, base, prop).Out? <==> works)
  {
    hide MulDiv, WithFee, WithinFee;
    if prop <= U32 - 1 - MILLION {
      SubFeeIsOptimal(given, base, prop);
    } else {
      var n := given - base;
      var d := (MILLION + prop) % U32;
      assert d == MILLION + prop - U32;
      if d != 0 {
        WrappedGuess(given, base, prop, n, d);
        if n == 0 { NothingLeft(given, base, prop, d); }
      }
    }
  }

  lemma NothingLeft(given: u64, base: u32, prop: u32, d: u64)
    requires given == base && d == (MILLION + prop) % U32 && d != 0
    ensures IsLargest(SubFee(given, base, prop), given, base, prop)
  {
    hide MulDiv, WithFee, WithinFee, SubFee;
    MulDivIsExact(0, MILLION, d);
    LargestIs(given, base, prop);
    WithFeeIsMore(Largest(0, prop), 0, prop);
    WithFeeBase(Largest(0, prop), base, prop);
    SubFeeIsRightIff(given, base, prop);
  }

  /** Beyond that, no assert fires and the result is wrong: 2^58 leaves 1, where 1000000 fits. */
  lemma WrongWithoutFailing()
    ensures var given, prop := U64 / 64, U32 - MILLION + 1;
            && SubFee(given, 0, prop) == Out(1)
            && WithFee(MILLION, 0, prop) <= given
            && !IsLargest(SubFee(given, 0, prop), given, 0, prop)
  {
    var given, prop := U64 / 64, U32 - MILLION + 1;
    assert (MILLION + prop) % U32 == 1;
    assert MulDiv(given, MILLION, 1) == 0;
    assert WithinFee(given, 0, 0, prop) && WithinFee(given, 1, 0, prop);
  }

  lemma WrappedGuess(given: u64, base: u32, prop: u32, n: u64, d: u64)
    requires U32 - MILLION < prop && d == MILLION + prop - U32
    requires n == given - base && n * MILLION / d < U64
    ensures WithinFee(given, MulDiv(n, MILLION, d), base, prop) <==> n == 0
  {
    MulDivIsExact(n, MILLION, d);
    var guess := n * MILLION / d;
    DivideMonotone(n * d, n * MILLION, d) by { MulMonotone(d, MILLION, n); }
    DivideIs(n * d, n, d, 0);
    assert n <= guess < U64;
    if n == 0 {
      assert guess == 0;
    } else if guess > n {
      TooMuch(given, guess, base, prop);
    } else {
      SmallGuess(n, d);
      FeeIsNotZero(guess, base, prop);
    }
  }

  lemma TooMuch(given: u64, out: u64, base: u32, prop: u32)
    requires given < base + out
    ensures !WithinFee(given, out, base, prop)
  {
  }

  lemma SmallGuess(n: nat, d: nat)
    requires 0 < d < MILLION && n * MILLION / d == n
    ensures n < MILLION
  {
    assert n * MILLION == n * d + n * MILLION % d;
    assert n * (MILLION - d) < d;
    MulMonotone(1, MILLION - d, n);
  }

  lemma FeeIsNotZero(out: u64, base: u32, prop: u32)
    requires 0 < out < MILLION && U32 - MILLION < prop
    ensures FeeOf(out, base, prop).Some? ==> base < FeeOf(out, base, prop).value
  {
    MulMonotone(1, out, prop);
    MulMonotone(out, MILLION, prop);
    DivideMonotone(prop, out * prop, MILLION);
    DivideMonotone(out * prop, MILLION * prop, MILLION);
    MulDivIsExact(out, prop, MILLION);
  }

  /** The fee is computed modulo 2^64: an amount whose fee wraps can pass the comparison and not fit. */
  lemma WrappedFeePasses()
    ensures var given, out := U64 - 1, U64 / 2;
            && WithinFee(given, out, 0, 2 * MILLION)
            && given < WithFee(out, 0, 2 * MILLION)
            && SubFee(given, 0, 2 * MILLION).Out? && SubFee(given, 0, 2 * MILLION).msat < out
  {
    var given, out := U64 - 1, U64 / 2;
    assert out * (2 * MILLION) / MILLION == U64;
    MulDivIsExact(out, 2 * MILLION, MILLION);
    SubFeeIsOptimal(given, 0, 2 * MILLION);
    assert given < WithFee(out, 0, 2 * MILLION);
  }
}
