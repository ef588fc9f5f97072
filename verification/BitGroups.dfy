/** `bech32_convert_bits`: a number read in digits of one width and written in digits of another. */
module BitGroups {
  import opened Sides
  import opened Amounts

  /** The number that the digits spell, most significant first, `width` bits each. */
  function Number(s: seq<nat>, width: nat): nat {
    if s == [] then 0 else Number(s[..|s| - 1], width) * Pow2(width) + s[|s| - 1]
  }

  predicate Digits(s: seq<nat>, width: nat) {
    forall i :: 0 <= i < |s| ==> s[i] < Pow2(width)
  }

  lemma NumberOne(s: seq<nat>, x: nat, width: nat)
    ensures Number(s + [x], width) == Number(s, width) * Pow2(width) + x
  {
    hide Pow2;
    assert (s + [x])[..|s|] == s;
  }

  /** As many digits, the same number: the same digits. */
  lemma {:induction false} NumberTells(s: seq<nat>, t: seq<nat>, width: nat)
    requires |s| == |t| && Digits(s, width) && Digits(t, width) && Number(s, width) == Number(t, width)
    ensures s == t
    decreases |s|
  {
    hide Pow2;
    if s != [] {
      var n := |s| - 1;
      var p := Pow2(width);
      DivideIs(Number(s, width), Number(s[..n], width), p, s[n]);
      DivideIs(Number(t, width), Number(t[..n], width), p, t[n]);
      NumberTells(s[..n], t[..n], width);
      assert s == s[..n] + [s[n]] && t == t[..n] + [t[n]];
    }
  }

  // ---- The accumulator

  /** Low bits of low bits. */
  lemma ModOfMod(v: nat, a: nat, b: nat)
    requires 0 < a && 0 < b
    ensures v % (a * b) % a == v % a
  {
    var q, r := v / (a * b), v % (a * b);
    assert v == q * (a * b) + r;
    var q', r' := r / a, r % a;
    assert v == (q * b + q') * a + r' by {
      Shuffle(q, a, b, q');
    }
    RemainderIs(v, q * b + q', a, r');
  }

  lemma Shuffle(q: int, a: int, b: int, q': int)
    ensures (q * b + q') * a == q * (a * b) + q' * a
  {
  }

  /** The low bits are a digit and the bits below it. */
  lemma ModSplit(v: nat, a: nat, b: nat)
    requires 0 < a && 0 < b
    ensures v % (a * b) == v / a % b * a + v % a
  {
    var q, r := v / a, v % a;
    var h, d := q / b, q % b;
    assert v == q * a + r && q == h * b + d;
    assert v == h * (a * b) + (d * a + r) by {
      Shuffle(h, a, b, d);
    }
    MulMonotone(d + 1, b, a);
    assert d * a + r < a * b;
    RemainderIs(v, h, a * b, d * a + r);
  }

  /** Digits shifted in at the bottom. */
  lemma ModShift(v: nat, a: nat, b: nat, x: nat)
    requires 0 < a && x < b
    ensures (v * b + x) % (a * b) == v % a * b + x
  {
    var q, r := v / a, v % a;
    assert v == q * a + r;
    assert v * b + x == q * (a * b) + (r * b + x) by {
      Shuffle2(q, a, b, r);
    }
    MulMonotone(r + 1, a, b);
    RemainderIs(v * b + x, q, a * b, r * b + x);
  }

  lemma Shuffle2(q: int, a: int, b: int, r: int)
    ensures (q * a + r) * b == q * (a * b) + r * b
  {
  }

  /** The accumulator is 32 bits wide; its low `bits` bits are what has not been written yet. */
  ghost predicate Pending(val: nat, bits: nat, input: seq<nat>, inbits: nat, out: seq<nat>, outbits: nat) {
    && val < U32 && Digits(out, outbits)
    && |out| * outbits + bits == |input| * inbits
    && Number(input, inbits) == Number(out, outbits) * Pow2(bits) + val % Pow2(bits)
  }

  lemma ReadDigit(val: nat, bits: nat, input: seq<nat>, inbits: nat, out: seq<nat>, outbits: nat, x: nat)
    requires Pending(val, bits, input, inbits, out, outbits) && x < Pow2(inbits) && bits + inbits <= 32
    ensures Pending((val * Pow2(inbits) + x) % U32, bits + inbits, input + [x], inbits, out, outbits)
  {
    var a, b, p, c := Pow2(bits), Pow2(inbits), Pow2(bits + inbits), Pow2(32 - bits - inbits);
    NumberOne(input, x, inbits);
    assert p == a * b by { Pow2Sum(bits, inbits); }
    assert p * c == U32 by {
      Pow2Sum(bits + inbits, 32 - bits - inbits);
      Pow2Of32();
    }
    hide Pow2, Number, Digits;
    LowBits(val, a, b, p, c, x);
    Reread(Number(out, outbits), a, b, p, val % a, x, Number(input, inbits));
    OneMoreDigit(|input|, inbits);
  }

  lemma LowBits(val: nat, a: nat, b: nat, p: nat, c: nat, x: nat)
    requires 0 < a && x < b && p == a * b && 0 < c && p * c == U32
    ensures 0 <= (val * b + x) % U32 && (val * b + x) % U32 % p == val % a * b + x
  {
    ModShift(val, a, b, x);
    var v := val * b + x;
    assert 0 < p by { MulMonotone(1, a, b); }
    ModOfMod(v, p, c);
  }

  lemma Reread(n: int, a: int, b: int, p: int, r: int, x: int, whole: int)
    requires whole == n * a + r && p == a * b
    ensures whole * b + x == n * p + (r * b + x)
  {
    Widened(n, a, b, r, x);
  }

  lemma Widened(n: int, a: int, b: int, r: int, x: int)
    ensures (n * a + r) * b + x == n * (a * b) + (r * b + x)
  {
  }

  lemma Pow2Of32()
    ensures Pow2(32) == U32
  {
    assert Pow2(8) == 0x100;
    hide Pow2;
    Pow2Sum(8, 8);
    Pow2Sum(16, 16);
  }

  lemma WriteDigit(val: nat, bits: nat, input: seq<nat>, inbits: nat, out: seq<nat>, outbits: nat)
    requires Pending(val, bits, input, inbits, out, outbits) && outbits <= bits
    ensures var digit := val / Pow2(bits - outbits) % Pow2(outbits);
            0 <= digit && Pending(val, bits - outbits, input, inbits, out + [digit], outbits)
  {
    var a, b := Pow2(bits - outbits), Pow2(outbits);
    var digit := val / a % b;
    NumberOne(out, digit, outbits);
    Pow2Sum(bits - outbits, outbits);
    hide Pow2, Number;
    ModSplit(val, a, b);
    Widened2(Number(out, outbits), a, b, digit);
    OneMoreDigit(|out|, outbits);
  }

  lemma OneMoreDigit(n: int, w: int)
    ensures (n + 1) * w == n * w + w
  {
  }

  lemma Widened2(n: int, a: int, b: int, d: int)
    ensures (n * b + d) * a == n * (a * b) + d * a
  {
  }

  // ---- bech32_convert_bits

  /** With padding: the number is shifted up until its bits fill whole digits. */
  ghost predicate PaddedUp(input: seq<nat>, inbits: nat, out: seq<nat>, outbits: nat) {
    var have, written := |input| * inbits, |out| * outbits;
    && Digits(out, outbits) && have <= written < have + outbits
    && Number(out, outbits) == Number(input, inbits) * Pow2(written - have)
  }

  /** Without: fewer bits are left over than a digit read has, they are zero, and are dropped. */
  ghost predicate CutDown(input: seq<nat>, inbits: nat, out: seq<nat>, outbits: nat) {
    var have, written := |input| * inbits, |out| * outbits;
    && Digits(out, outbits) && written <= have < written + outbits && have - written < inbits
    && Number(input, inbits) == Number(out, outbits) * Pow2(have - written)
  }

  lemma PadDigit(val: nat, bits: nat, input: seq<nat>, inbits: nat, out: seq<nat>, outbits: nat)
    requires Pending(val, bits, input, inbits, out, outbits) && 0 < bits < outbits <= 8
    ensures var digit := val * Pow2(outbits - bits) % U32 % Pow2(outbits);
            0 <= digit && PaddedUp(input, inbits, out + [digit], outbits)
  {
    var a, b, p := Pow2(bits), Pow2(outbits - bits), Pow2(outbits);
    var digit := val * b % U32 % p;
    NumberOne(out, digit, outbits);
    ShiftedDigit(val, bits, outbits);
    assert a * b == p by { Pow2Sum(bits, outbits - bits); }
    hide Pow2, Number;
    assert digit == val % a * b;
    Widened(Number(out, outbits), a, b, val % a, 0);
    OneMoreDigit(|out|, outbits);
  }

  /** The bits left over, moved to the top of a digit. */
  lemma ShiftedDigit(val: nat, bits: nat, outbits: nat)
    requires bits < outbits <= 8
    ensures val * Pow2(outbits - bits) % U32 % Pow2(outbits) == val % Pow2(bits) * Pow2(outbits - bits)
  {
    var a, b, p, c := Pow2(bits), Pow2(outbits - bits), Pow2(outbits), Pow2(32 - outbits);
    assert p == a * b by { Pow2Sum(bits, outbits - bits); }
    assert p * c == U32 by {
      Pow2Sum(outbits, 32 - outbits);
      Pow2Of32();
    }
    hide Pow2;
    LowBits(val, a, b, p, c, 0);
  }

  lemma LeftOverIsZero(val: nat, bits: nat, outbits: nat)
    requires bits < outbits <= 8
    ensures val * Pow2(outbits - bits) % U32 % Pow2(outbits) == 0 <==> val % Pow2(bits) == 0
  {
    ShiftedDigit(val, bits, outbits);
    hide Pow2;
    if val % Pow2(bits) > 0 { MulMonotone(1, val % Pow2(bits), Pow2(outbits - bits)); }
  }

  method ConvertBits(input: seq<nat>, inbits: nat, outbits: nat, pad: bool) returns (out: Option<seq<nat>>)
    requires 1 <= inbits <= 8 && 1 <= outbits <= 8 && Digits(input, inbits)
    ensures pad ==> out.Some? && PaddedUp(input, inbits, out.value, outbits)
    ensures !pad && out.Some? ==> CutDown(input, inbits, out.value, outbits)
    ensures !pad && out.None? ==> forall o: seq<nat> :: !CutDown(input, inbits, o, outbits)
  {
    hide Pow2, Number, Digits, Pending, PaddedUp, CutDown;
    var val, bits := 0, 0;
    var s: seq<nat> := [];
    assert input[..0] == [];
    NothingPending(inbits, outbits);
    for k := 0 to |input|
      invariant 0 <= bits < outbits && 0 <= val && Pending(val, bits, input[..k], inbits, s, outbits)
    {
      DigitAt(input, inbits, k);
      ReadDigit(val, bits, input[..k], inbits, s, outbits, input[k]);
      assert input[..k] + [input[k]] == input[..k + 1];
      val := (val * Pow2(inbits) + input[k]) % U32;
      bits := bits + inbits;
      while bits >= outbits
        invariant 0 <= bits && Pending(val, bits, input[..k + 1], inbits, s, outbits)
      {
        WriteDigit(val, bits, input[..k + 1], inbits, s, outbits);
        bits := bits - outbits;
        s := s + [val / Pow2(bits) % Pow2(outbits)];
      }
    }
    assert input[..|input|] == input;
    if pad {
      if bits != 0 {
        PadDigit(val, bits, input, inbits, s, outbits);
        s := s + [val * Pow2(outbits - bits) % U32 % Pow2(outbits)];
      } else {
        NothingToPad(val, input, inbits, s, outbits);
      }
      return Some(s);
    }
    LeftOverIsZero(val, bits, outbits);
    Cut(val, bits, input, inbits, s, outbits);
    if val * Pow2(outbits - bits) % U32 % Pow2(outbits) != 0 || bits >= inbits { return None; }
    return Some(s);
  }

  lemma NothingPending(inbits: nat, outbits: nat)
    ensures Pending(0, 0, [], inbits, [], outbits)
  {
  }

  lemma DigitAt(s: seq<nat>, width: nat, k: nat)
    requires Digits(s, width) && k < |s|
    ensures s[k] < Pow2(width)
  {
  }

  lemma NothingToPad(val: nat, input: seq<nat>, inbits: nat, out: seq<nat>, outbits: nat)
    requires Pending(val, 0, input, inbits, out, outbits) && 0 < outbits
    ensures PaddedUp(input, inbits, out, outbits)
  {
    assert Pow2(0) == 1;
    hide Pow2, Number;
  }

  /** When the bits left over are zero the digits written are the answer; otherwise there is none. */
  lemma Cut(val: nat, bits: nat, input: seq<nat>, inbits: nat, out: seq<nat>, outbits: nat)
    requires Pending(val, bits, input, inbits, out, outbits) && bits < outbits
    ensures val % Pow2(bits) == 0 && bits < inbits ==> CutDown(input, inbits, out, outbits)
    ensures !(val % Pow2(bits) == 0 && bits < inbits) ==> forall o: seq<nat> :: !CutDown(input, inbits, o, outbits)
  {
    hide Pow2, Number, Digits;
    forall o: seq<nat> | CutDown(input, inbits, o, outbits) ensures val % Pow2(bits) == 0 && bits < inbits {
      SameCount(|o|, |out|, outbits, |input| * inbits);
      var p := Pow2(bits);
      RemainderIs(Number(input, inbits), Number(o, outbits), p, 0);
      RemainderIs(Number(input, inbits), Number(out, outbits), p, val % p);
    }
  }

  lemma SameCount(m: nat, n: nat, w: nat, have: nat)
    requires m * w <= have < m * w + w && n * w <= have < n * w + w
    ensures m == n
  {
    DivideIs(have, m, w, have - m * w);
    DivideIs(have, n, w, have - n * w);
  }

  /** Bytes to groups of five bits and back: the same bytes. */
  method EightToFiveToEight(bytes: seq<nat>) returns (five: seq<nat>, back: Option<seq<nat>>)
    requires Digits(bytes, 8)
    ensures PaddedUp(bytes, 8, five, 5)
    ensures back == Some(bytes)
  {
    hide Number, Pow2, PaddedUp, CutDown;
    var padded := ConvertBits(bytes, 8, 5, true);
    five := padded.value;
    PaddedIsDigits(bytes, five);
    back := ConvertBits(five, 5, 8, false);
    BackAgain(bytes, five);
    if back.Some? { CutIsUnique(five, back.value, bytes); }
  }

  lemma PaddedIsDigits(bytes: seq<nat>, five: seq<nat>)
    requires PaddedUp(bytes, 8, five, 5)
    ensures Digits(five, 5)
  {
  }

  lemma BackAgain(bytes: seq<nat>, five: seq<nat>)
    requires Digits(bytes, 8) && PaddedUp(bytes, 8, five, 5)
    ensures CutDown(five, 5, bytes, 8)
  {
    hide Number, Pow2, Digits;
  }

  lemma CutIsUnique(five: seq<nat>, a: seq<nat>, b: seq<nat>)
    requires CutDown(five, 5, a, 8) && CutDown(five, 5, b, 8)
    ensures a == b
  {
    hide Number, Pow2, Digits;
    SameCount(|a|, |b|, 8, |five| * 5);
    var p := Pow2(|five| * 5 - |a| * 8);
    DivideIs(Number(five, 5), Number(a, 8), p, 0);
    DivideIs(Number(five, 5), Number(b, 8), p, 0);
    NumberTells(a, b, 8);
  }
}
