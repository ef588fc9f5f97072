/** Bech32 and Bech32m: text with a checksum that is linear over bits. */
module Bech32 {
  import opened Sides

  datatype Encoding = Bech32 | Bech32m

  // ---- The checksum register, thirty bits wide

  function Xor(a: bv32, b: bv32): bv32 {
    a ^ b
  }

  lemma XorCommutes(a: bv32, b: bv32)
    ensures Xor(a, b) == Xor(b, a)
  {
  }

  lemma XorAssociates(a: bv32, b: bv32, c: bv32)
    ensures Xor(Xor(a, b), c) == Xor(a, Xor(b, c))
  {
  }

  lemma XorLaws(a: bv32, b: bv32, c: bv32)
    ensures Xor(Xor(a, b), c) == Xor(Xor(a, c), b) == Xor(a, Xor(b, c))
  {
    hide Xor;
    XorAssociates(a, b, c);
    XorAssociates(a, c, b);
    XorCommutes(b, c);
  }

  lemma XorCancels(a: bv32, b: bv32)
    ensures Xor(a, Xor(a, b)) == b
  {
  }

  /** Fits in thirty bits. */
  predicate Fits(a: bv32) {
    a & 0xC0000000 == 0
  }

  lemma XorFits(a: bv32, b: bv32)
    requires Fits(a) && Fits(b)
    ensures Fits(Xor(a, b))
  {
  }

  /** The bits that a step keeps, shifted up. */
  function Shift(pre: bv32): bv32 {
    (pre & 0x1FFFFFF) << 5
  }

  /** The five bits that a step shifts out, each folded back in as a generator. */
  function Fold(pre: bv32): bv32 {
    (if pre & 0x2000000 != 0 then 0x3b6a57b2 else 0)
    ^ (if pre & 0x4000000 != 0 then 0x26508e6d else 0)
    ^ (if pre & 0x8000000 != 0 then 0x1ea119fa else 0)
    ^ (if pre & 0x10000000 != 0 then 0x3d4233dd else 0)
    ^ (if pre & 0x20000000 != 0 then 0x2a1462b3 else 0)
  }

  /** `bech32_polymod_step`. */
  function Step(pre: bv32): bv32 {
    Xor(Shift(pre), Fold(pre))
  }

  predicate Low(q: bv32) {
    q < 0x2000000
  }

  function Up(q: bv32): bv32 {
    q << 5
  }

  lemma SameTopBits(p: bv32, q: bv32)
    requires Low(q)
    ensures (p ^ q) & 0x2000000 == p & 0x2000000
    ensures (p ^ q) & 0x4000000 == p & 0x4000000
    ensures (p ^ q) & 0x8000000 == p & 0x8000000
    ensures (p ^ q) & 0x10000000 == p & 0x10000000
    ensures (p ^ q) & 0x20000000 == p & 0x20000000
  {
  }

  lemma FoldIgnoresLow(p: bv32, q: bv32)
    requires Low(q)
    ensures Fold(Xor(p, q)) == Fold(p)
  {
    SameTopBits(p, q);
  }

  lemma ShiftIsLinear(p: bv32, q: bv32)
    requires Low(q)
    ensures Shift(Xor(p, q)) == Xor(Shift(p), Up(q))
  {
  }

  /** The step is linear in what has not reached the top five bits yet. */
  lemma StepIsLinear(p: bv32, q: bv32)
    requires Low(q)
    ensures Step(Xor(p, q)) == Xor(Step(p), Up(q))
  {
    hide Shift, Fold, Xor, Up, Low;
    FoldIgnoresLow(p, q);
    ShiftIsLinear(p, q);
    XorLaws(Shift(p), Up(q), Fold(p));
  }

  lemma ShiftFits(p: bv32)
    ensures Fits(Shift(p))
  {
  }

  lemma FoldFits(p: bv32)
    ensures Fits(Fold(p))
  {
    var a: bv32 := if p & 0x2000000 != 0 then 0x3b6a57b2 else 0;
    var b: bv32 := if p & 0x4000000 != 0 then 0x26508e6d else 0;
    var c: bv32 := if p & 0x8000000 != 0 then 0x1ea119fa else 0;
    var d: bv32 := if p & 0x10000000 != 0 then 0x3d4233dd else 0;
    var e: bv32 := if p & 0x20000000 != 0 then 0x2a1462b3 else 0;
    XorFits(a, b);
    XorFits(a ^ b, c);
    XorFits(a ^ b ^ c, d);
    XorFits(a ^ b ^ c ^ d, e);
  }

  lemma StepFits(p: bv32)
    ensures Fits(Step(p))
  {
    hide Shift, Fold, Fits, Xor;
    ShiftFits(p);
    FoldFits(p);
    XorFits(Shift(p), Fold(p));
  }

  function Widen(v: bv8): bv32 {
    v as bv32
  }

  /** The register after `vs`. */
  function Poly(chk: bv32, vs: seq<bv8>): bv32 {
    if vs == [] then chk else Xor(Step(Poly(chk, vs[..|vs| - 1])), Widen(vs[|vs| - 1]))
  }

  lemma PolyOne(c: bv32, vs: seq<bv8>, v: bv8)
    ensures Poly(c, vs + [v]) == Xor(Step(Poly(c, vs)), Widen(v))
  {
    hide Xor, Step, Widen;
    assert (vs + [v])[..|vs|] == vs;
  }

  lemma {:induction false} PolyConcat(c: bv32, vs: seq<bv8>, ws: seq<bv8>)
    ensures Poly(c, vs + ws) == Poly(Poly(c, vs), ws)
    decreases |ws|
  {
    hide Xor, Step, Widen;
    if ws == [] {
      assert vs + ws == vs;
    } else {
      var us, w := ws[..|ws| - 1], ws[|ws| - 1];
      assert vs + ws == (vs + us) + [w];
      PolyConcat(c, vs, us);
      PolyOne(c, vs + us, w);
    }
  }

  // ---- The six checksum values

  /** `k` without its last `5 * n` bits. */
  function Top0(k: bv32): bv32 { k >> 25 }
  function Top1(k: bv32): bv32 { k >> 20 }
  function Top2(k: bv32): bv32 { k >> 15 }
  function Top3(k: bv32): bv32 { k >> 10 }
  function Top4(k: bv32): bv32 { k >> 5 }

  /** Its last five bits. */
  function Five(k: bv32): bv8 {
    (k & 0x1f) as bv8
  }

  function Digits(k: bv32): seq<bv8> {
    [Five(Top0(k)), Five(Top1(k)), Five(Top2(k)), Five(Top3(k)), Five(Top4(k)), Five(k)]
  }

  lemma FirstDigit(k: bv32)
    requires Fits(k)
    ensures Low(Top0(k)) && Widen(Five(Top0(k))) == Top0(k)
  {
  }

  lemma SecondDigit(k: bv32)
    requires Fits(k)
    ensures Low(Top1(k)) && Xor(Up(Top0(k)), Widen(Five(Top1(k)))) == Top1(k)
  {
  }

  lemma ThirdDigit(k: bv32)
    requires Fits(k)
    ensures Low(Top2(k)) && Xor(Up(Top1(k)), Widen(Five(Top2(k)))) == Top2(k)
  {
  }

  lemma FourthDigit(k: bv32)
    requires Fits(k)
    ensures Low(Top3(k)) && Xor(Up(Top2(k)), Widen(Five(Top3(k)))) == Top3(k)
  {
  }

  lemma FifthDigit(k: bv32)
    requires Fits(k)
    ensures Low(Top4(k)) && Xor(Up(Top3(k)), Widen(Five(Top4(k)))) == Top4(k)
  {
  }

  lemma SixthDigit(k: bv32)
    requires Fits(k)
    ensures Xor(Up(Top4(k)), Widen(Five(k))) == k
  {
  }

  /** A digit fed in shifts the ones before it up by five bits. */
  lemma Feed(c: bv32, vs: seq<bv8>, s: bv32, top: bv32, digit: bv8, next: bv32)
    requires Poly(c, vs) == Xor(s, top) && Low(top) && Xor(Up(top), Widen(digit)) == next
    ensures Poly(c, vs + [digit]) == Xor(Step(s), next)
  {
    hide Step, Xor, Up, Low, Widen, Poly;
    PolyOne(c, vs, digit);
    StepIsLinear(s, top);
    XorLaws(Step(s), Up(top), Widen(digit));
  }

  function Step6(c: bv32): bv32 {
    Step(Step(Step(Step(Step(Step(c))))))
  }

  /** Feeding the digits of `k` after `c` leaves the six-fold step of `c`, with `k` on top. */
  lemma DigitsCancel(c: bv32, k: bv32)
    requires Fits(k)
    ensures Poly(c, Digits(k)) == Xor(Step6(c), k)
  {
    hide Step, Xor, Up, Low, Widen, Fits, Top0, Top1, Top2, Top3, Top4, Five;
    var a, b, d := Five(Top0(k)), Five(Top1(k)), Five(Top2(k));
    var e, f, g := Five(Top3(k)), Five(Top4(k)), Five(k);
    FirstDigit(k);
    SecondDigit(k);
    ThirdDigit(k);
    FourthDigit(k);
    FifthDigit(k);
    SixthDigit(k);
    PolyOne(c, [], a);
    assert Poly(c, []) == c;
    hide Poly;
    assert [] + [a] == [a] && [a] + [b] == [a, b] && [a, b] + [d] == [a, b, d] && [a, b, d] + [e] == [a, b, d, e];
    assert [a, b, d, e] + [f] == [a, b, d, e, f] && [a, b, d, e, f] + [g] == [a, b, d, e, f, g];
    Feed(c, [a], Step(c), Top0(k), b, Top1(k));
    Feed(c, [a, b], Step(Step(c)), Top1(k), d, Top2(k));
    Feed(c, [a, b, d], Step(Step(Step(c))), Top2(k), e, Top3(k));
    Feed(c, [a, b, d, e], Step(Step(Step(Step(c)))), Top3(k), f, Top4(k));
    Feed(c, [a, b, d, e, f], Step(Step(Step(Step(Step(c))))), Top4(k), g, k);
  }

  // ---- Characters

  const SEPARATOR: bv8 := 49

  /** `bech32_charset`: qpzry9x8gf2tvdw0s3jn54khce6mua7l. */
  function Charset(v: bv8): bv8
    requires v < 32
  {
    if v == 0 then 113 else if v == 1 then 112 else if v == 2 then 122 else if v == 3 then 114 else
    if v == 4 then 121 else if v == 5 then 57 else if v == 6 then 120 else if v == 7 then 56 else
    if v == 8 then 103 else if v == 9 then 102 else if v == 10 then 50 else if v == 11 then 116 else
    if v == 12 then 118 else if v == 13 then 100 else if v == 14 then 119 else if v == 15 then 48 else
    if v == 16 then 115 else if v == 17 then 51 else if v == 18 then 106 else if v == 19 then 110 else
    if v == 20 then 53 else if v == 21 then 52 else if v == 22 then 107 else if v == 23 then 104 else
    if v == 24 then 99 else if v == 25 then 101 else if v == 26 then 54 else if v == 27 then 109 else
    if v == 28 then 117 else if v == 29 then 97 else if v == 30 then 55 else 108
  }

  /** The lower half of `bech32_charset_rev`. */
  function LowerRev(c: bv8): Option<bv8> {
    if c == 48 then Some(15) else if c == 50 then Some(10) else if c == 51 then Some(17) else
    if c == 52 then Some(21) else if c == 53 then Some(20) else if c == 54 then Some(26) else
    if c == 55 then Some(30) else if c == 56 then Some(7) else if c == 57 then Some(5) else
    if c == 97 then Some(29) else if c == 99 then Some(24) else if c == 100 then Some(13) else
    if c == 101 then Some(25) else if c == 102 then Some(9) else if c == 103 then Some(8) else
    if c == 104 then Some(23) else if c == 106 then Some(18) else if c == 107 then Some(22) else
    if c == 108 then Some(31) else if c == 109 then Some(27) else if c == 110 then Some(19) else
    if c == 112 then Some(1) else if c == 113 then Some(0) else if c == 114 then Some(3) else
    if c == 115 then Some(16) else if c == 116 then Some(11) else if c == 117 then Some(28) else
    if c == 118 then Some(12) else if c == 119 then Some(14) else if c == 120 then Some(6) else
    if c == 121 then Some(4) else if c == 122 then Some(2) else
    None
  }

  /** `bech32_charset_rev`: capitals as their small letters; nothing for a character that is not in the set. */
  function CharsetRev(c: bv8): Option<bv8> {
    LowerRev(ToLower(c))
  }

  predicate IsUpper(c: bv8) {
    65 <= c <= 90
  }

  predicate IsLower(c: bv8) {
    97 <= c <= 122
  }

  function ToLower(c: bv8): bv8 {
    if IsUpper(c) then c + 32 else c
  }

  lemma CharsetIsLower(v: bv8)
    requires v < 32
    ensures Charset(v) != SEPARATOR && !IsUpper(Charset(v))
  {
  }

  lemma LowerRevOfCharset(v: bv8)
    requires v < 32
    ensures LowerRev(Charset(v)) == Some(v)
  {
  }

  lemma RevOfCharset(v: bv8)
    requires v < 32
    ensures CharsetRev(Charset(v)) == Some(v)
  {
    hide Charset, LowerRev;
    CharsetIsLower(v);
    LowerRevOfCharset(v);
  }

  lemma CharsetOfLowerRev(c: bv8)
    requires LowerRev(c).Some?
    ensures LowerRev(c).value < 32 && Charset(LowerRev(c).value) == c
  {
  }

  lemma CharsetOfRev(c: bv8)
    requires CharsetRev(c).Some?
    ensures CharsetRev(c).value < 32 && Charset(CharsetRev(c).value) == ToLower(c)
  {
    hide Charset, LowerRev, ToLower;
    CharsetOfLowerRev(ToLower(c));
  }

  // ---- Encoding

  /** `bech32_final_constant`. */
  function FinalConstant(enc: Encoding): bv32 {
    if enc.Bech32? then 1 else 0x2bc830a3
  }

  predicate Printable(c: bv8) {
    33 <= c <= 126
  }

  function High(c: bv8): bv8 {
    c >> 5
  }

  function LowFive(c: bv8): bv8 {
    c & 0x1f
  }

  function Highs(hrp: seq<bv8>): seq<bv8> {
    seq(|hrp|, i requires 0 <= i < |hrp| => High(hrp[i]))
  }

  function Lows(hrp: seq<bv8>): seq<bv8> {
    seq(|hrp|, i requires 0 <= i < |hrp| => LowFive(hrp[i]))
  }

  /** The register after the human-readable part: the high bits, a zero, the low bits. */
  function HrpPoly(hrp: seq<bv8>): bv32 {
    Poly(Step(Poly(1, Highs(hrp))), Lows(hrp))
  }

  predicate AllValues(vs: seq<bv8>) {
    forall i :: 0 <= i < |vs| ==> vs[i] < 32
  }

  function Chars(vs: seq<bv8>): seq<bv8>
    requires AllValues(vs)
  {
    seq(|vs|, i requires 0 <= i < |vs| => Charset(vs[i]))
  }

  predicate ValidHrp(hrp: seq<bv8>) {
    forall i :: 0 <= i < |hrp| ==> Printable(hrp[i]) && !IsUpper(hrp[i])
  }

  function Checksum(hrp: seq<bv8>, data: seq<bv8>, enc: Encoding): bv32 {
    Xor(Step6(Poly(HrpPoly(hrp), data)), FinalConstant(enc))
  }

  lemma DigitsAreValues(k: bv32)
    ensures AllValues(Digits(k))
  {
    hide Top0, Top1, Top2, Top3, Top4;
  }

  function Encoded(hrp: seq<bv8>, data: seq<bv8>, enc: Encoding): seq<bv8>
    requires AllValues(data)
  {
    DigitsAreValues(Checksum(hrp, data, enc));
    hrp + [SEPARATOR] + Chars(data) + Chars(Digits(Checksum(hrp, data, enc)))
  }

  lemma HighsOneMore(s: seq<bv8>, i: nat)
    requires i < |s|
    ensures Highs(s[..i + 1]) == Highs(s[..i]) + [High(s[i])]
    ensures Lows(s[..i + 1]) == Lows(s[..i]) + [LowFive(s[i])]
  {
    hide High, LowFive;
  }

  lemma CharsOneMore(s: seq<bv8>, i: nat)
    requires i < |s| && AllValues(s[..i]) && s[i] < 32
    ensures AllValues(s[..i + 1]) && Chars(s[..i + 1]) == Chars(s[..i]) + [Charset(s[i])]
  {
    hide Charset;
  }

  /** `bech32_encode`: nothing where it returns 0. */
  method Encode(hrp: seq<bv8>, data: seq<bv8>, maxLength: nat, enc: Encoding) returns (out: Option<seq<bv8>>)
    ensures out == if ValidHrp(hrp) && |hrp| + 7 + |data| <= maxLength && AllValues(data)
                   then Some(Encoded(hrp, data, enc)) else None
  {
    hide Poly, Step, Xor, Widen, Charset, High, LowFive, Highs, Lows, Chars, Printable, IsUpper;
    var chk: bv32 := 1;
    NothingFed(1);
    assert hrp[..0] == [] && data[..0] == [];
    for i := 0 to |hrp|
      invariant chk == Poly(1, Highs(hrp[..i]))
      invariant forall j :: 0 <= j < i ==> Printable(hrp[j]) && !IsUpper(hrp[j])
    {
      if !Printable(hrp[i]) { return None; }
      if IsUpper(hrp[i]) { return None; }
      HighsOneMore(hrp, i);
      PolyOne(1, Highs(hrp[..i]), High(hrp[i]));
      chk := Xor(Step(chk), Widen(High(hrp[i])));
    }
    assert hrp[..|hrp|] == hrp && data[..|data|] == data;
    if |hrp| + 7 + |data| > maxLength { return None; }
    chk := Step(chk);
    ghost var start := chk;
    NothingFed(start);
    var text := [];
    for i := 0 to |hrp|
      invariant chk == Poly(start, Lows(hrp[..i])) && text == hrp[..i]
    {
      HighsOneMore(hrp, i);
      PolyOne(start, Lows(hrp[..i]), LowFive(hrp[i]));
      chk := Xor(Step(chk), Widen(LowFive(hrp[i])));
      text := text + [hrp[i]];
    }
    text := text + [SEPARATOR];
    start := chk;
    NothingFed(start);
    ghost var head := text;
    for i := 0 to |data|
      invariant AllValues(data[..i]) && chk == Poly(start, data[..i]) && text == head + Chars(data[..i])
    {
      if data[i] >= 32 { return None; }
      CharsOneMore(data, i);
      PolyOne(start, data[..i], data[i]);
      assert data[..i + 1] == data[..i] + [data[i]];
      chk := Xor(Step(chk), Widen(data[i]));
      text := text + [Charset(data[i])];
    }
    for i := 0 to 6
      invariant chk == StepTimes(Poly(start, data), i)
    {
      chk := Step(chk);
    }
    StepTimesSix(Poly(start, data));
    chk := Xor(chk, FinalConstant(enc));
    var digits := Digits(chk);
    DigitsAreValues(chk);
    ghost var body := text;
    for i := 0 to 6
      invariant text == body + Chars(digits[..i])
    {
      CharsOneMore(digits, i);
      text := text + [Charset(digits[i])];
    }
    assert digits[..6] == digits;
    return Some(text);
  }

  lemma NothingFed(c: bv32)
    ensures Poly(c, []) == c && Highs([]) == [] && Lows([]) == [] && Chars([]) == []
  {
  }

  function StepTimes(c: bv32, n: nat): bv32 {
    if n == 0 then c else Step(StepTimes(c, n - 1))
  }

  lemma StepTimesSix(c: bv32)
    ensures StepTimes(c, 6) == Step6(c)
  {
    hide Step;
    assert StepTimes(c, 1) == Step(c);
    assert StepTimes(c, 2) == Step(Step(c));
    assert StepTimes(c, 3) == Step(Step(Step(c)));
    assert StepTimes(c, 4) == Step(Step(Step(Step(c))));
  }

  // ---- Decoding

  datatype Decoded = Decoded(hrp: seq<bv8>, data: seq<bv8>, enc: Encoding)

  /** How many characters follow the last separator; all of them if there is none. */
  function AfterSeparator(s: seq<bv8>): (n: nat)
    ensures n <= |s|
  {
    if s == [] || s[|s| - 1] == SEPARATOR then 0 else 1 + AfterSeparator(s[..|s| - 1])
  }

  function Values(s: seq<bv8>): (r: Option<seq<bv8>>)
    ensures r.Some? ==> |r.value| == |s|
  {
    if s == [] then Some([])
    else
      var before, last := Values(s[..|s| - 1]), CharsetRev(s[|s| - 1]);
      if before.None? || last.None? then None else Some(before.value + [last.value])
  }

  function Lowered(s: seq<bv8>): seq<bv8> {
    seq(|s|, i requires 0 <= i < |s| => ToLower(s[i]))
  }

  predicate HasUpper(s: seq<bv8>) {
    exists i :: 0 <= i < |s| && IsUpper(s[i])
  }

  predicate HasLower(s: seq<bv8>) {
    exists i :: 0 <= i < |s| && IsLower(s[i])
  }

  predicate AllPrintable(s: seq<bv8>) {
    forall i :: 0 <= i < |s| ==> Printable(s[i])
  }

  function EncodingOf(chk: bv32): Option<Encoding> {
    if chk == FinalConstant(Bech32) then Some(Bech32) else if chk == FinalConstant(Bech32m) then Some(Bech32m) else None
  }

  /**
    What a text decodes to, if it decodes: at least eight characters, a human-readable part, six checksum values, one
    case.
   */
  function Decoding(input: seq<bv8>, maxLength: nat): Option<Decoded> {
    var n := AfterSeparator(input);
    if |input| < 8 || |input| > maxLength || 1 + n >= |input| || n < 6 then None
    else
      var h := |input| - 1 - n;
      var vs := Values(input[h + 1..]);
      if !AllPrintable(input[..h]) || vs.None? then None
      else if (HasLower(input[..h]) || HasLower(input[h + 1..]))
        && (HasUpper(input[..h]) || HasUpper(input[h + 1..])) then None
      else
        var enc := EncodingOf(Poly(HrpPoly(Lowered(input[..h])), vs.value));
        if enc.None? then None else Some(Decoded(Lowered(input[..h]), vs.value[..n - 6], enc.value))
  }

  lemma {:induction false} SeparatorFound(s: seq<bv8>, t: seq<bv8>)
    requires SEPARATOR !in t
    ensures AfterSeparator(s + [SEPARATOR] + t) == |t|
    decreases |t|
  {
    var all := s + [SEPARATOR] + t;
    if t != [] {
      var u := t[..|t| - 1];
      assert all[..|all| - 1] == s + [SEPARATOR] + u;
      assert all[|all| - 1] == t[|t| - 1];
      SeparatorFound(s, u);
    } else {
      assert all[|all| - 1] == SEPARATOR;
    }
  }

  lemma {:induction false} ValuesOfChars(vs: seq<bv8>)
    requires AllValues(vs)
    ensures Values(Chars(vs)) == Some(vs)
    decreases |vs|
  {
    hide Charset, CharsetRev;
    if vs != [] {
      var n := |vs| - 1;
      ValuesOfChars(vs[..n]);
      CharsOneMore(vs, n);
      assert vs[..n + 1] == vs;
      RevOfCharset(vs[n]);
      assert Chars(vs)[..n] == Chars(vs[..n]);
      assert vs == vs[..n] + [vs[n]];
    }
  }

  lemma CharsArePlain(vs: seq<bv8>)
    requires AllValues(vs)
    ensures SEPARATOR !in Chars(vs) && !HasUpper(Chars(vs))
  {
    hide Charset, IsUpper;
    forall i | 0 <= i < |vs| ensures Chars(vs)[i] != SEPARATOR && !IsUpper(Chars(vs)[i]) {
      CharsetIsLower(vs[i]);
    }
  }

  lemma LoweredStays(hrp: seq<bv8>)
    requires ValidHrp(hrp)
    ensures Lowered(hrp) == hrp && AllPrintable(hrp) && !HasUpper(hrp)
  {
    hide Printable, IsUpper;
  }

  lemma FinalConstantFits(enc: Encoding)
    ensures Fits(FinalConstant(enc)) && EncodingOf(FinalConstant(enc)) == Some(enc)
  {
  }

  /** The register after the data and its checksum is the constant of the encoding. */
  lemma ChecksumChecks(hrp: seq<bv8>, data: seq<bv8>, enc: Encoding)
    ensures Poly(HrpPoly(hrp), data + Digits(Checksum(hrp, data, enc))) == FinalConstant(enc)
  {
    var c := Poly(HrpPoly(hrp), data);
    var k := Checksum(hrp, data, enc);
    StepFits(Step(Step(Step(Step(Step(c))))));
    FinalConstantFits(enc);
    hide Poly, Step, Xor, Digits, Fits, HrpPoly, FinalConstant;
    XorFits(Step6(c), FinalConstant(enc));
    PolyConcat(HrpPoly(hrp), data, Digits(k));
    DigitsCancel(c, k);
    XorCancels(Step6(c), FinalConstant(enc));
  }

  lemma TextParts(hrp: seq<bv8>, body: seq<bv8>)
    ensures var text := hrp + [SEPARATOR] + body;
            |text| == |hrp| + 1 + |body| && text[..|hrp|] == hrp && text[|hrp| + 1..] == body
  {
  }

  /** A text that is put together from a human-readable part and values that check out decodes to them. */
  lemma DecodeOfText(hrp: seq<bv8>, vs: seq<bv8>, enc: Encoding, maxLength: nat)
    requires ValidHrp(hrp) && AllValues(vs) && 6 <= |vs| && |hrp| + 1 + |vs| <= maxLength
    requires Poly(HrpPoly(hrp), vs) == FinalConstant(enc)
    ensures Decoding(hrp + [SEPARATOR] + Chars(vs), maxLength) ==
            if hrp == [] then None else Some(Decoded(hrp, vs[..|vs| - 6], enc))
  {
    var body := Chars(vs);
    assert |body| == |vs|;
    CharsArePlain(vs);
    ValuesOfChars(vs);
    LoweredStays(hrp);
    FinalConstantFits(enc);
    SeparatorFound(hrp, body);
    TextParts(hrp, body);
    hide Chars, Charset, Poly, HrpPoly, EncodingOf, FinalConstant, Lowered, HasUpper, HasLower, AllPrintable, Values,
         AfterSeparator;
    var text := hrp + [SEPARATOR] + body;
    assert AfterSeparator(text) == |vs|;
  }

  lemma CharsConcat(a: seq<bv8>, b: seq<bv8>)
    requires AllValues(a) && AllValues(b)
    ensures AllValues(a + b) && Chars(a + b) == Chars(a) + Chars(b)
  {
    hide Charset;
    assert |Chars(a)| == |a| && |Chars(b)| == |b|;
    forall i | 0 <= i < |a + b| ensures (a + b)[i] < 32 && Charset((a + b)[i]) == (Chars(a) + Chars(b))[i] {
    }
  }

  lemma Regrouped(a: seq<bv8>, b: seq<bv8>, c: seq<bv8>, d: seq<bv8>)
    ensures a + b + c + d == a + b + (c + d)
    ensures (c + d)[..|c|] == c
  {
  }

  lemma EncodedIsText(hrp: seq<bv8>, data: seq<bv8>, enc: Encoding)
    requires AllValues(data)
    ensures var vs := data + Digits(Checksum(hrp, data, enc));
            && AllValues(vs) && |vs| == |data| + 6 && vs[..|data|] == data
            && Encoded(hrp, data, enc) == hrp + [SEPARATOR] + Chars(vs)
  {
    var digits := Digits(Checksum(hrp, data, enc));
    DigitsAreValues(Checksum(hrp, data, enc));
    assert |digits| == 6;
    hide Checksum, Digits, Chars, AllValues;
    CharsConcat(data, digits);
    Regrouped(hrp, [SEPARATOR], Chars(data), Chars(digits));
    Regrouped(hrp, [SEPARATOR], data, digits);
  }

  /**
    Decoding undoes encoding, for every human-readable part that is valid, lower-case and not empty, and
    every data within the length.  (An empty one encodes to a text that does not decode.)
   */
  lemma DecodeOfEncode(hrp: seq<bv8>, data: seq<bv8>, enc: Encoding, maxLength: nat)
    requires ValidHrp(hrp) && AllValues(data) && |hrp| + 7 + |data| <= maxLength
    ensures Decoding(Encoded(hrp, data, enc), maxLength) == if hrp == [] then None else Some(Decoded(hrp, data, enc))
  {
    hide Checksum, Digits, Decoding, Poly, HrpPoly, FinalConstant, Chars, Encoded, AllValues, ValidHrp;
    EncodedIsText(hrp, data, enc);
    ChecksumChecks(hrp, data, enc);
    DecodeOfText(hrp, data + Digits(Checksum(hrp, data, enc)), enc, maxLength);
  }

  lemma LoweredOneMore(s: seq<bv8>, i: nat)
    requires i < |s|
    ensures Lowered(s[..i + 1]) == Lowered(s[..i]) + [ToLower(s[i])]
  {
    hide ToLower;
  }

  lemma CaseOneMore(s: seq<bv8>, i: nat)
    requires i < |s|
    ensures HasUpper(s[..i + 1]) == (HasUpper(s[..i]) || IsUpper(s[i]))
    ensures HasLower(s[..i + 1]) == (HasLower(s[..i]) || IsLower(s[i]))
  {
    hide IsUpper, IsLower;
    var a, b := s[..i], s[..i + 1];
    assert b[i] == s[i] && forall j :: 0 <= j < i ==> a[j] == b[j];
  }

  lemma ValuesOneMore(s: seq<bv8>, i: nat)
    requires i < |s| && Values(s[..i]).Some?
    ensures Values(s[..i + 1]) == if CharsetRev(s[i]).None? then None
            else Some(Values(s[..i]).value + [CharsetRev(s[i]).value])
  {
    hide CharsetRev;
    assert s[..i + 1][..i] == s[..i];
  }

  lemma {:induction false} ValuesFail(s: seq<bv8>, i: nat)
    requires i <= |s| && Values(s[..i]).None?
    ensures Values(s).None?
    decreases |s|
  {
    hide CharsetRev;
    if i == |s| {
      assert s[..i] == s;
    } else {
      var n := |s| - 1;
      assert s[..n][..i] == s[..i];
      ValuesFail(s[..n], i);
    }
  }

  lemma LowFiveOfLower(c: bv8)
    requires Printable(c)
    ensures LowFive(ToLower(c)) == LowFive(c)
  {
  }

  lemma {:induction false} SeparatorPlace(s: seq<bv8>, n: nat)
    requires n <= |s| && (forall i :: |s| - n <= i < |s| ==> s[i] != SEPARATOR)
    requires n < |s| ==> s[|s| - 1 - n] == SEPARATOR
    ensures AfterSeparator(s) == n
    decreases |s|
  {
    if n > 0 {
      assert s[|s| - 1] != SEPARATOR;
      SeparatorPlace(s[..|s| - 1], n - 1);
    }
  }

  /** The human-readable part: its small letters, its cases, and the register after it. */
  method ReadHrp(part: seq<bv8>) returns (ok: bool, hrp: seq<bv8>, lower: bool, upper: bool, chk: bv32)
    ensures ok == AllPrintable(part)
    ensures ok ==> && hrp == Lowered(part) && lower == HasLower(part) && upper == HasUpper(part)
                   && chk == HrpPoly(Lowered(part))
  {
    hide Poly, Step, Xor, Widen, High, LowFive, Highs, Lows, IsUpper, IsLower, Printable, HasUpper, HasLower, Lowered;
    hrp, lower, upper, chk := [], false, false, 1;
    NothingFed(1);
    NothingLowered();
    assert part[..0] == [];
    for i := 0 to |part|
      invariant hrp == Lowered(part[..i]) && lower == HasLower(part[..i]) && upper == HasUpper(part[..i])
      invariant |hrp| == i && chk == Poly(1, Highs(hrp))
      invariant forall j :: 0 <= j < i ==> Printable(part[j])
    {
      if !Printable(part[i]) { return false, hrp, lower, upper, chk; }
      LoweredOneMore(part, i);
      CaseOneMore(part, i);
      OneCase(part[i]);
      var ch := part[i];
      if IsLower(ch) {
        lower := true;
      } else if IsUpper(ch) {
        upper := true;
        ch := ToLower(ch);
      }
      assert (hrp + [ch])[..i] == hrp;
      HighsOneMore(hrp + [ch], i);
      assert (hrp + [ch])[..i + 1] == hrp + [ch];
      PolyOne(1, Highs(hrp), High(ch));
      hrp := hrp + [ch];
      chk := Xor(Step(chk), Widen(High(ch)));
    }
    assert part[..|part|] == part;
    chk := Step(chk);
    ghost var start := chk;
    NothingFed(start);
    assert hrp[..0] == [];
    for i := 0 to |part|
      invariant chk == Poly(start, Lows(hrp[..i]))
    {
      HighsOneMore(hrp, i);
      LowFiveOfLower(part[i]);
      LoweredAt(part, i);
      PolyOne(start, Lows(hrp[..i]), LowFive(hrp[i]));
      chk := Xor(Step(chk), Widen(LowFive(part[i])));
    }
    assert hrp[..|part|] == hrp;
    ok := true;
  }

  lemma NothingLowered()
    ensures Lowered([]) == [] && !HasLower([]) && !HasUpper([])
  {
  }

  lemma OneCase(c: bv8)
    ensures !(IsLower(c) && IsUpper(c))
    ensures !IsUpper(c) ==> ToLower(c) == c
  {
  }

  lemma LoweredAt(s: seq<bv8>, i: nat)
    requires i < |s|
    ensures |Lowered(s)| == |s| && Lowered(s)[i] == ToLower(s[i])
  {
  }

  /** The characters after the separator: their values, their cases, and the register after them. */
  method ReadValues(part: seq<bv8>, start: bv32) returns (vs: Option<seq<bv8>>, lower: bool, upper: bool, chk: bv32)
    ensures vs == Values(part)
    ensures vs.Some? ==> lower == HasLower(part) && upper == HasUpper(part) && chk == Poly(start, vs.value)
  {
    hide Poly, Step, Xor, Widen, IsUpper, IsLower, HasUpper, HasLower, Values, CharsetRev;
    var read: seq<bv8> := [];
    lower, upper, chk := false, false, start;
    NothingFed(start);
    NothingLowered();
    NoValues();
    assert part[..0] == [];
    for i := 0 to |part|
      invariant Values(part[..i]) == Some(read) && lower == HasLower(part[..i]) && upper == HasUpper(part[..i])
      invariant chk == Poly(start, read)
    {
      var v := CharsetRev(part[i]);
      CaseOneMore(part, i);
      ValuesOneMore(part, i);
      if IsLower(part[i]) { lower := true; }
      if IsUpper(part[i]) { upper := true; }
      if v.None? {
        ValuesFail(part, i + 1);
        return None, lower, upper, chk;
      }
      PolyOne(start, read, v.value);
      chk := Xor(Step(chk), Widen(v.value));
      read := read + [v.value];
    }
    assert part[..|part|] == part;
    vs := Some(read);
  }

  lemma NoValues()
    ensures Values([]) == Some([])
  {
  }

  /** `bech32_decode`. */
  method Decode(input: seq<bv8>, maxLength: nat) returns (r: Option<Decoded>)
    ensures r == Decoding(input, maxLength)
  {
    hide Poly, Step, HasUpper, HasLower, Values, AllPrintable, Lowered, AfterSeparator, HrpPoly, EncodingOf;
    if |input| < 8 || |input| > maxLength { return None; }
    var n := 0;
    while n < |input| && input[|input| - 1 - n] != SEPARATOR
      invariant n <= |input| && forall i :: |input| - n <= i < |input| ==> input[i] != SEPARATOR
    {
      n := n + 1;
    }
    SeparatorPlace(input, n);
    if 1 + n >= |input| || n < 6 { return None; }
    var h := |input| - 1 - n;
    var ok, hrp, lower, upper, chk := ReadHrp(input[..h]);
    if !ok { return None; }
    var vs, lower', upper', chk' := ReadValues(input[h + 1..], chk);
    if vs.None? { return None; }
    if (lower || lower') && (upper || upper') { return None; }
    var enc := EncodingOf(chk');
    if enc.None? { return None; }
    return Some(Decoded(hrp, vs.value[..n - 6], enc.value));
  }
}
