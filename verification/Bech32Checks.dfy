/**
  What the Bech32 checksum is good for: an accepted text is the encoding of what it holds, and bursts of errors show.
 */
module Bech32Checks {
  import opened Sides
  import opened Bech32
  import opened Bech32Bits

  // ---- No two registers become the same

  lemma XorFrees(a: bv32, b: bv32, c: bv32)
    requires Xor(a, c) == Xor(b, c) || Xor(c, a) == Xor(c, b)
    ensures a == b
  {
  }

  /** The bits that a step shifts out. */
  function Top(a: bv32): bv32 {
    a >> 25
  }

  /** The last five bits of what they are folded to, and back: the generators are independent there. */
  function Mixed(t: bv32): bv32 {
    (if t & 1 != 0 then 0x12 else 0) ^ (if t & 2 != 0 then 0x0d else 0) ^ (if t & 4 != 0 then 0x1a else 0)
    ^ (if t & 8 != 0 then 0x1d else 0) ^ (if t & 16 != 0 then 0x13 else 0)
  }

  function Unmixed(m: bv32): bv32 {
    (if m & 1 != 0 then 0x11 else 0) ^ (if m & 2 != 0 then 0xb else 0) ^ (if m & 4 != 0 then 0x16 else 0)
    ^ (if m & 8 != 0 then 0x5 else 0) ^ (if m & 16 != 0 then 0xa else 0)
  }

  lemma UnmixedOfMixed(t: bv32)
    requires t < 32
    ensures Unmixed(Mixed(t)) == t
  {
  }

  lemma FoldIsMixed(a: bv32)
    requires Fits(a)
    ensures Top(a) < 32 && Fold(a) & 0x1f == Mixed(Top(a))
  {
  }

  lemma StepEnds(a: bv32)
    ensures Step(a) & 0x1f == Fold(a) & 0x1f
  {
    hide Fold;
  }

  lemma FoldOfTop(a: bv32, b: bv32)
    requires Fits(a) && Fits(b) && Top(a) == Top(b)
    ensures Fold(a) == Fold(b)
  {
    assert a & 0x3e000000 == b & 0x3e000000;
  }

  lemma TopAndRest(a: bv32, b: bv32)
    requires Top(a) == Top(b) && Shift(a) == Shift(b)
    ensures a == b
  {
  }

  /** A step loses nothing. */
  lemma StepIsInjective(a: bv32, b: bv32)
    requires Fits(a) && Fits(b) && Step(a) == Step(b)
    ensures a == b
  {
    hide Fold, Mixed, Unmixed, Top, Fits, Xor, Shift;
    FoldIsMixed(a);
    FoldIsMixed(b);
    StepEnds(a);
    StepEnds(b);
    UnmixedOfMixed(Top(a));
    UnmixedOfMixed(Top(b));
    FoldOfTop(a, b);
    XorFrees(Shift(a), Shift(b), Fold(a));
    TopAndRest(a, b);
  }

  lemma WidenFits(v: bv8)
    ensures Fits(Widen(v))
  {
  }

  lemma {:induction false} PolyFits(c: bv32, vs: seq<bv8>)
    requires Fits(c)
    ensures Fits(Poly(c, vs))
    decreases |vs|
  {
    hide Xor, Step, Widen, Fits;
    if vs != [] {
      var n := |vs| - 1;
      StepFits(Poly(c, vs[..n]));
      WidenFits(vs[n]);
      XorFits(Step(Poly(c, vs[..n])), Widen(vs[n]));
    }
  }

  lemma {:induction false} PolyIsInjective(c: bv32, d: bv32, vs: seq<bv8>)
    requires Fits(c) && Fits(d) && Poly(c, vs) == Poly(d, vs)
    ensures c == d
    decreases |vs|
  {
    hide Xor, Step, Widen, Fits;
    if vs != [] {
      var us := vs[..|vs| - 1];
      PolyFits(c, us);
      PolyFits(d, us);
      XorFrees(Step(Poly(c, us)), Step(Poly(d, us)), Widen(vs[|vs| - 1]));
      StepIsInjective(Poly(c, us), Poly(d, us));
      PolyIsInjective(c, d, us);
    }
  }

  lemma HrpPolyFits(hrp: seq<bv8>)
    ensures Fits(HrpPoly(hrp))
  {
    hide Poly, Step, Fits;
    StepFits(Poly(1, Highs(hrp)));
    PolyFits(Step(Poly(1, Highs(hrp))), Lows(hrp));
  }

  // ---- Up to six values, side by side in the register

  function Packed(vs: seq<bv8>): bv32 {
    if vs == [] then 0 else Xor(Up(Packed(vs[..|vs| - 1])), Widen(vs[|vs| - 1]))
  }

  /** Room for `n` values of five bits. */
  predicate Room(p: bv32, n: nat) {
    match n
    case 0 => p == 0
    case 1 => p < 0x20
    case 2 => p < 0x400
    case 3 => p < 0x8000
    case 4 => p < 0x100000
    case 5 => Low(p)
    case _ => true
  }

  lemma OneMoreFits(p: bv32, v: bv8, n: nat)
    requires Room(p, n) && v < 32
    ensures Room(Xor(Up(p), Widen(v)), n + 1)
  {
  }

  lemma RoomIsLow(p: bv32, n: nat)
    requires Room(p, n) && n <= 5
    ensures Low(p)
  {
  }

  lemma {:induction false} PackedFits(vs: seq<bv8>)
    requires AllValues(vs)
    ensures Room(Packed(vs), |vs|)
    decreases |vs|
  {
    hide Xor, Up, Widen, Low;
    if vs != [] {
      var n := |vs| - 1;
      PackedFits(vs[..n]);
      OneMoreFits(Packed(vs[..n]), vs[n], n);
    }
  }

  /** Up to six values only add themselves to what the register becomes without them. */
  lemma {:induction false} PolyIsPacked(c: bv32, vs: seq<bv8>)
    requires AllValues(vs) && |vs| <= 6
    ensures Poly(c, vs) == Xor(StepTimes(c, |vs|), Packed(vs))
    decreases |vs|
  {
    if vs == [] {
      assert Xor(c, 0) == c;
    } else {
      hide Xor, Up, Widen, Low, Step, Room;
      var us, v := vs[..|vs| - 1], vs[|vs| - 1];
      PolyIsPacked(c, us);
      PackedFits(us);
      RoomIsLow(Packed(us), |us|);
      assert vs == us + [v];
      Feed(c, us, StepTimes(c, |us|), Packed(us), v, Packed(vs));
    }
  }

  lemma LastOfPacked(p: bv32, q: bv32, v: bv8, w: bv8)
    requires Low(p) && Low(q) && v < 32 && w < 32 && Xor(Up(p), Widen(v)) == Xor(Up(q), Widen(w))
    ensures p == q && v == w
  {
  }

  lemma {:induction false} PackedIsInjective(us: seq<bv8>, ws: seq<bv8>)
    requires AllValues(us) && AllValues(ws) && |us| == |ws| <= 6 && Packed(us) == Packed(ws)
    ensures us == ws
    decreases |us|
  {
    hide Xor, Up, Widen, Low, Room;
    if us != [] {
      var n := |us| - 1;
      PackedFits(us[..n]);
      PackedFits(ws[..n]);
      RoomIsLow(Packed(us[..n]), n);
      RoomIsLow(Packed(ws[..n]), n);
      LastOfPacked(Packed(us[..n]), Packed(ws[..n]), us[n], ws[n]);
      PackedIsInjective(us[..n], ws[..n]);
      assert us == us[..n] + [us[n]] && ws == ws[..n] + [ws[n]];
    }
  }

  lemma SixAreTold(c: bv32, us: seq<bv8>, ws: seq<bv8>)
    requires AllValues(us) && AllValues(ws) && |us| == |ws| <= 6 && Poly(c, us) == Poly(c, ws)
    ensures us == ws
  {
    hide Poly, Xor, StepTimes, Packed;
    PolyIsPacked(c, us);
    PolyIsPacked(c, ws);
    XorFrees(Packed(us), Packed(ws), StepTimes(c, |us|));
    PackedIsInjective(us, ws);
  }

  /** A register tells apart values that differ only within six neighbours, wherever those are. */
  lemma BurstIsTold(c: bv32, before: seq<bv8>, us: seq<bv8>, ws: seq<bv8>, after: seq<bv8>)
    requires Fits(c) && AllValues(us) && AllValues(ws) && |us| == |ws| <= 6
    requires Poly(c, before + us + after) == Poly(c, before + ws + after)
    ensures us == ws
  {
    hide Poly, Fits;
    var d := Poly(c, before);
    PolyFits(c, before);
    PolyFits(d, us);
    PolyFits(d, ws);
    PolyConcat(c, before, us);
    PolyConcat(c, before, ws);
    PolyConcat(c, before + us, after);
    PolyConcat(c, before + ws, after);
    PolyIsInjective(Poly(d, us), Poly(d, ws), after);
    SixAreTold(d, us, ws);
  }

  // ---- The other way round: every accepted text is an encoding

  lemma LowerIsValid(part: seq<bv8>)
    requires AllPrintable(part)
    ensures ValidHrp(Lowered(part)) && |Lowered(part)| == |part|
  {
    forall i | 0 <= i < |part| ensures Printable(Lowered(part)[i]) && !IsUpper(Lowered(part)[i]) {
      assert Printable(part[i]);
    }
  }

  lemma EncodingIs(chk: bv32, enc: Encoding)
    ensures EncodingOf(chk) == Some(enc) <==> chk == FinalConstant(enc)
  {
  }

  lemma SixDigits(k: bv32)
    ensures |Digits(k)| == 6
  {
    hide Top0, Top1, Top2, Top3, Top4, Five;
  }

  /** The six last values of an accepted text are the checksum of those before. */
  lemma ChecksumIsTheOnly(hrp: seq<bv8>, vs: seq<bv8>, enc: Encoding)
    requires AllValues(vs) && 6 <= |vs| && Poly(HrpPoly(hrp), vs) == FinalConstant(enc)
    ensures var data := vs[..|vs| - 6]; vs == data + Digits(Checksum(hrp, data, enc))
  {
    hide Poly, HrpPoly, Digits, Checksum, FinalConstant;
    var data, six := vs[..|vs| - 6], vs[|vs| - 6..];
    var digits := Digits(Checksum(hrp, data, enc));
    SixDigits(Checksum(hrp, data, enc));
    DigitsAreValues(Checksum(hrp, data, enc));
    assert vs == data + six && AllValues(six);
    hide AllValues;
    ChecksumChecks(hrp, data, enc);
    PolyConcat(HrpPoly(hrp), data, six);
    PolyConcat(HrpPoly(hrp), data, digits);
    SixAreTold(Poly(HrpPoly(hrp), data), six, digits);
  }

  ghost function SeparatorOf(s: seq<bv8>): int {
    |s| - 1 - AfterSeparator(s)
  }

  lemma {:induction false} SeparatorIsThere(s: seq<bv8>)
    requires AfterSeparator(s) < |s|
    ensures s[SeparatorOf(s)] == SEPARATOR
    decreases |s|
  {
    if s[|s| - 1] != SEPARATOR { SeparatorIsThere(s[..|s| - 1]); }
  }

  /** What a text that decodes consists of. */
  lemma DecodedMeans(s: seq<bv8>, maxLength: nat)
    requires Decoding(s, maxLength).Some?
    ensures var h := SeparatorOf(s);
            var d := Decoding(s, maxLength).value;
            && 0 < h <= |s| - 7 && |s| <= maxLength && s[h] == SEPARATOR && AllPrintable(s[..h])
               && d.hrp == Lowered(s[..h])
            && Values(s[h + 1..]).Some?
            && var vs := Values(s[h + 1..]).value;
               |vs| == |s| - 1 - h && d.data == vs[..|vs| - 6] && Poly(HrpPoly(d.hrp), vs) == FinalConstant(d.enc)
  {
    SeparatorIsThere(s);
    var h := SeparatorOf(s);
    hide Poly, HrpPoly, FinalConstant, EncodingOf, Lowered, AllPrintable, HasUpper, HasLower, AfterSeparator, Values;
    EncodingIs(Poly(HrpPoly(Lowered(s[..h])), Values(s[h + 1..]).value), Decoding(s, maxLength).value.enc);
  }

  /**
    Encoding undoes decoding: what is accepted is, but for its case, the encoding of what it decodes to.
    With `DecodeOfEncode`, decoding and encoding are inverse to each other.
   */
  lemma EncodeOfDecode(s: seq<bv8>, maxLength: nat)
    requires Decoding(s, maxLength).Some?
    ensures var d := Decoding(s, maxLength).value;
            && d.hrp != [] && ValidHrp(d.hrp) && AllValues(d.data) && |d.hrp| + 7 + |d.data| == |s|
            && Encoded(d.hrp, d.data, d.enc) == Lowered(s)
  {
    DecodedMeans(s, maxLength);
    var h := SeparatorOf(s);
    var d := Decoding(s, maxLength).value;
    var vs := Values(s[h + 1..]).value;
    CharsOfValues(s[h + 1..]);
    LowerIsValid(s[..h]);
    assert AllValues(d.data);
    hide Decoding, Poly, HrpPoly, Digits, Checksum, FinalConstant, Chars, Encoded, Lowered, AllValues, Values,
         AllPrintable, SeparatorOf;
    ChecksumIsTheOnly(d.hrp, vs, d.enc);
    EncodedIsText(d.hrp, d.data, d.enc);
    LoweredText(s, h);
  }

  // ---- Bursts

  /** The texts agree outside the six places from `i` on. */
  predicate AgreeBut(s: seq<bv8>, t: seq<bv8>, i: nat)
    requires |s| == |t|
  {
    forall j :: 0 <= j < |s| && !(i <= j < i + 6) ==> s[j] == t[j]
  }

  lemma {:induction false} ValueAt(part: seq<bv8>, i: nat)
    requires Values(part).Some? && i < |part|
    ensures CharsetRev(part[i]) == Some(Values(part).value[i])
    decreases |part|
  {
    hide CharsetRev;
    if i < |part| - 1 { ValueAt(part[..|part| - 1], i); }
  }

  lemma ValuesAgree(p: seq<bv8>, q: seq<bv8>, i: nat)
    requires |p| == |q| && AgreeBut(p, q, i) && Values(p).Some? && Values(q).Some?
    ensures AgreeBut(Values(p).value, Values(q).value, i)
  {
    hide Values, CharsetRev;
    var us, vs := Values(p).value, Values(q).value;
    forall j | 0 <= j < |p| && !(i <= j < i + 6) ensures us[j] == vs[j] {
      ValueAt(p, j);
      ValueAt(q, j);
    }
  }

  /** Values that agree but for six neighbours, and check out the same, are the same. */
  lemma SameValues(c: bv32, us: seq<bv8>, vs: seq<bv8>, i: nat)
    requires Fits(c) && AllValues(us) && AllValues(vs) && |us| == |vs| && AgreeBut(us, vs, i)
             && Poly(c, us) == Poly(c, vs)
    ensures us == vs
  {
    hide Poly, Fits;
    var n := |us|;
    var a := if i <= n then i else n;
    var b := if i + 6 <= n then i + 6 else n;
    assert us == us[..a] + us[a..b] + us[b..];
    assert vs == us[..a] + vs[a..b] + us[b..];
    BurstIsTold(c, us[..a], us[a..b], vs[a..b], us[b..]);
  }

  lemma PartsAgree(s: seq<bv8>, t: seq<bv8>, h: nat, i: nat)
    requires |s| == |t| && h < i && h < |s| && AgreeBut(s, t, i)
    ensures s[..h] == t[..h] && AgreeBut(s[h + 1..], t[h + 1..], i - h - 1)
  {
  }

  /**
    If two texts are accepted under the same encoding, with the separator at the same place, and they differ in at
    most six neighbouring characters after it, then they differ in case only.
   */
  lemma BurstIsDetected(s: seq<bv8>, t: seq<bv8>, i: nat, maxLength: nat)
    requires |s| == |t| && AfterSeparator(s) == AfterSeparator(t) && SeparatorOf(s) < i && AgreeBut(s, t, i)
    requires Decoding(s, maxLength).Some? && Decoding(t, maxLength).Some?
    requires Decoding(s, maxLength).value.enc == Decoding(t, maxLength).value.enc
    ensures Lowered(s) == Lowered(t) && Decoding(s, maxLength) == Decoding(t, maxLength)
  {
    hide Decoding, Poly, HrpPoly, FinalConstant, Encoded, Lowered, AllValues, Values, AllPrintable, Fits, Chars,
         AfterSeparator, ValidHrp;
    DecodedMeans(s, maxLength);
    DecodedMeans(t, maxLength);
    EncodeOfDecode(s, maxLength);
    EncodeOfDecode(t, maxLength);
    var h := SeparatorOf(s);
    var p, q := s[h + 1..], t[h + 1..];
    hide AgreeBut;
    PartsAgree(s, t, h, i);
    CharsOfValues(p);
    CharsOfValues(q);
    ValuesAgree(p, q, i - h - 1);
    HrpPolyFits(Lowered(s[..h]));
    SameValues(HrpPoly(Lowered(s[..h])), Values(p).value, Values(q).value, i - h - 1);
  }

  // ---- A text from BIP 173

  lemma FedOne(c: bv32, v: bv8)
    ensures Poly(c, [v]) == Xor(Step(c), Widen(v))
  {
    hide Xor, Step, Widen;
    PolyOne(c, [], v);
    assert [] + [v] == [v];
  }

  lemma RegisterOfA()
    ensures HrpPoly([97]) == 0x8c01
  {
    assert Highs([97]) == [3] && Lows([97]) == [1];
    FedOne(1, 3);
    FedOne(0x460, 1);
    assert Xor(Step(1), Widen(3)) == 0x23 && Step(0x23) == 0x460 && Xor(Step(0x460), Widen(1)) == 0x8c01;
  }

  lemma SixStepsOfA()
    ensures Step6(0x8c01) == 0x15ccfe9e
  {
    assert Step(0x8c01) == 0x118020 && Step(0x118020) == 0x2300400 && Step(0x2300400) == 0x3d6ad7b2;
    assert Step(0x3d6ad7b2) == 0x2fd30b9 && Step(0x2fd30b9) == 0x24cc4092 && Step(0x24cc4092) == 0x15ccfe9e;
  }

  /** No data under the human-readable part `a` is the text `a12uel5l`; every generator takes part in it. */
  lemma KnownText()
    ensures Encoded([97], [], Bech32) == [97, 49, 50, 117, 101, 108, 53, 108]
  {
    RegisterOfA();
    SixStepsOfA();
    assert Xor(0x15ccfe9e, 1) == 0x15ccfe9f;
    hide Step6, HrpPoly, Xor;
    assert Checksum([97], [], Bech32) == 0x15ccfe9f;
    assert Digits(0x15ccfe9f) == [10, 28, 25, 31, 20, 31];
    hide Digits, Checksum;
    assert Chars([10, 28, 25, 31, 20, 31]) == [50, 117, 101, 108, 53, 108];
  }
}
