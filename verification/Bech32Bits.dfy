/** Bytes as groups of five bits, and text without a checksum (`from_bech32_charset`, `to_bech32_charset`). */
module Bech32Bits {
  import opened Sides
  import opened Bech32

  // ---- Bits, most significant first

  function BitsOf8(x: bv8): seq<bool> {
    [x & 128 != 0, x & 64 != 0, x & 32 != 0, x & 16 != 0, x & 8 != 0, x & 4 != 0, x & 2 != 0, x & 1 != 0]
  }

  function BitsOf5(x: bv8): seq<bool> {
    [x & 16 != 0, x & 8 != 0, x & 4 != 0, x & 2 != 0, x & 1 != 0]
  }

  function Bits8(s: seq<bv8>): (r: seq<bool>)
    ensures |r| == 8 * |s|
  {
    if s == [] then [] else Bits8(s[..|s| - 1]) + BitsOf8(s[|s| - 1])
  }

  function Bits5(s: seq<bv8>): (r: seq<bool>)
    ensures |r| == 5 * |s|
  {
    if s == [] then [] else Bits5(s[..|s| - 1]) + BitsOf5(s[|s| - 1])
  }

  /** `get_bit`. */
  function GetBit(s: seq<bv8>, off: nat): bool
    requires off < 8 * |s|
  {
    BitsOf8(s[off / 8])[off % 8]
  }

  /** `get_u5_bit`. */
  function GetU5Bit(s: seq<bv8>, off: nat): bool
    requires off < 5 * |s|
  {
    BitsOf5(s[off / 5])[off % 5]
  }

  lemma {:induction false} GetBitIs(s: seq<bv8>, off: nat)
    requires off < 8 * |s|
    ensures GetBit(s, off) == Bits8(s)[off]
  {
    hide BitsOf8;
    if off < 8 * (|s| - 1) {
      GetBitIs(s[..|s| - 1], off);
    }
  }

  lemma {:induction false} GetU5BitIs(s: seq<bv8>, off: nat)
    requires off < 5 * |s|
    ensures GetU5Bit(s, off) == Bits5(s)[off]
  {
    hide BitsOf5;
    if off < 5 * (|s| - 1) {
      GetU5BitIs(s[..|s| - 1], off);
    }
  }

  /** Bits shifted into a byte one after the other. */
  function Acc(bs: seq<bool>): bv8 {
    if bs == [] then 0 else ShiftIn(Acc(bs[..|bs| - 1]), bs[|bs| - 1])
  }

  function ShiftIn(x: bv8, b: bool): bv8 {
    (x << 1) | (if b then 1 else 0)
  }

  function Acc5(a: bool, b: bool, c: bool, d: bool, e: bool): bv8 {
    ShiftIn(ShiftIn(ShiftIn(ShiftIn(ShiftIn(0, a), b), c), d), e)
  }

  lemma Acc5Bits(a: bool, b: bool, c: bool, d: bool, e: bool)
    ensures Acc5(a, b, c, d, e) < 32
    ensures BitsOf5(Acc5(a, b, c, d, e)) == [a, b, c, d, e]
  {
  }

  lemma Acc8Bits(a: bool, b: bool, c: bool, d: bool, e: bool, f: bool, g: bool, h: bool)
    ensures BitsOf8(ShiftIn(ShiftIn(ShiftIn(Acc5(a, b, c, d, e), f), g), h)) == [a, b, c, d, e, f, g, h]
  {
  }

  lemma AccOne(bs: seq<bool>, b: bool)
    ensures Acc(bs + [b]) == ShiftIn(Acc(bs), b)
  {
    hide ShiftIn;
    assert (bs + [b])[..|bs|] == bs;
  }

  lemma AccOfFive(a: bool, b: bool, c: bool, d: bool, e: bool)
    ensures Acc([a, b, c, d, e]) == Acc5(a, b, c, d, e)
  {
    hide ShiftIn;
    assert Acc([]) == 0;
    AccOne([], a);
    AccOne([a], b);
    AccOne([a, b], c);
    AccOne([a, b, c], d);
    AccOne([a, b, c, d], e);
    hide Acc;
    assert [] + [a] == [a] && [a] + [b] == [a, b] && [a, b] + [c] == [a, b, c];
    assert [a, b, c] + [d] == [a, b, c, d] && [a, b, c, d] + [e] == [a, b, c, d, e];
  }

  lemma AccFive(bs: seq<bool>)
    requires |bs| == 5
    ensures Acc(bs) < 32 && BitsOf5(Acc(bs)) == bs
  {
    hide Acc, Acc5, BitsOf5;
    var a, b, c, d, e := bs[0], bs[1], bs[2], bs[3], bs[4];
    AccOfFive(a, b, c, d, e);
    Acc5Bits(a, b, c, d, e);
    assert bs == [a, b, c, d, e];
  }

  lemma AccEight(bs: seq<bool>)
    requires |bs| == 8
    ensures BitsOf8(Acc(bs)) == bs
  {
    hide Acc, Acc5, BitsOf8, ShiftIn;
    var a, b, c, d, e, f, g, h := bs[0], bs[1], bs[2], bs[3], bs[4], bs[5], bs[6], bs[7];
    AccOfFive(a, b, c, d, e);
    AccOne([a, b, c, d, e], f);
    AccOne([a, b, c, d, e, f], g);
    AccOne([a, b, c, d, e, f, g], h);
    Acc8Bits(a, b, c, d, e, f, g, h);
    assert [a, b, c, d, e] + [f] == [a, b, c, d, e, f] && [a, b, c, d, e, f] + [g] == [a, b, c, d, e, f, g];
    assert [a, b, c, d, e, f, g] + [h] == [a, b, c, d, e, f, g, h];
    assert bs == [a, b, c, d, e, f, g, h];
  }

  lemma FiveBitsTell(x: bv8, y: bv8)
    requires x < 32 && y < 32 && BitsOf5(x) == BitsOf5(y)
    ensures x == y
  {
    assert forall i :: 0 <= i < 5 ==> BitsOf5(x)[i] == BitsOf5(y)[i];
    SameFive(x, y, BitsOf5(x)[0], BitsOf5(x)[1], BitsOf5(x)[2], BitsOf5(x)[3], BitsOf5(x)[4]);
  }

  lemma SameFive(x: bv8, y: bv8, a: bool, b: bool, c: bool, d: bool, e: bool)
    requires x < 32 && y < 32
    requires (x & 16 != 0) == (y & 16 != 0) == a && (x & 8 != 0) == (y & 8 != 0) == b
             && (x & 4 != 0) == (y & 4 != 0) == c
    requires (x & 2 != 0) == (y & 2 != 0) == d && (x & 1 != 0) == (y & 1 != 0) == e
    ensures x == y
  {
  }

  lemma LastFive(s: seq<bv8>, n: nat)
    requires |s| == n + 1
    ensures Bits5(s)[..5 * n] == Bits5(s[..n]) && Bits5(s)[5 * n..] == BitsOf5(s[n])
  {
    hide BitsOf5;
  }

  lemma {:induction false} Bits5Tell(s: seq<bv8>, t: seq<bv8>)
    requires AllValues(s) && AllValues(t) && |s| == |t| && Bits5(s) == Bits5(t)
    ensures s == t
    decreases |s|
  {
    hide BitsOf5, Bits5;
    if s != [] {
      var n := |s| - 1;
      LastFive(s, n);
      LastFive(t, n);
      Bits5Tell(s[..n], t[..n]);
      FiveBitsTell(s[n], t[n]);
      assert s == s[..n] + [s[n]] && t == t[..n] + [t[n]];
    }
  }

  lemma EightBitsTell(x: bv8, y: bv8)
    requires BitsOf8(x) == BitsOf8(y)
    ensures x == y
  {
    var s, t := BitsOf8(x), BitsOf8(y);
    assert s[0] == t[0] && s[1] == t[1] && s[2] == t[2] && s[3] == t[3];
    assert s[4] == t[4] && s[5] == t[5] && s[6] == t[6] && s[7] == t[7];
  }

  lemma {:induction false} Bits8Tell(s: seq<bv8>, t: seq<bv8>)
    requires |s| == |t| && Bits8(s) == Bits8(t)
    ensures s == t
    decreases |s|
  {
    hide BitsOf8;
    if s != [] {
      var n := |s| - 1;
      assert Bits8(s)[..8 * n] == Bits8(s[..n]) && Bits8(t)[..8 * n] == Bits8(t[..n]);
      assert Bits8(s)[8 * n..] == BitsOf8(s[n]) && Bits8(t)[8 * n..] == BitsOf8(t[n]);
      Bits8Tell(s[..n], t[..n]);
      EightBitsTell(s[n], t[n]);
      assert s == s[..n] + [s[n]] && t == t[..n] + [t[n]];
    }
  }

  // ---- Pushing and pulling

  /** The first `n` of the bits, followed by zeros where there are none. */
  function Padded(bits: seq<bool>, n: nat): seq<bool> {
    seq(n, i requires 0 <= i < n => i < |bits| && bits[i])
  }

  /** `data` holds the bits in groups of five, the last group filled up with zeros. */
  ghost predicate Holds(data: seq<bv8>, bits: seq<bool>) {
    AllValues(data) && |bits| <= 5 * |data| < |bits| + 5 && Bits5(data) == Padded(bits, 5 * |data|)
  }

  /** `bech32_push_bits`, onto an empty array. */
  method PushBits(src: seq<bv8>, nbits: nat) returns (data: seq<bv8>)
    requires nbits <= 8 * |src|
    ensures Holds(data, Bits8(src)[..nbits])
  {
    hide Bits8, Bits5, BitsOf5, BitsOf8, Acc, ShiftIn;
    data := [];
    ghost var bits := Bits8(src)[..nbits];
    NoBits();
    var i := 0;
    while i < nbits
      invariant i == 5 * |data| && i < nbits + 5 && AllValues(data) && Bits5(data) == Padded(bits, i)
    {
      var value: bv8 := 0;
      ghost var group: seq<bool> := [];
      for b := 0 to 5
        invariant |group| == b && value == Acc(group)
        invariant forall j :: 0 <= j < b ==> group[j] == (i + j < nbits && bits[i + j])
      {
        ghost var bit := i + b < nbits && bits[i + b];
        AccOne(group, bit);
        if i + b < nbits {
          GetBitIs(src, i + b);
          value := ShiftIn(value, GetBit(src, i + b));
        } else {
          value := ShiftIn(value, false);
        }
        group := group + [bit];
      }
      AccFive(group);
      OneGroup(data, value);
      assert Padded(bits, i) + group == Padded(bits, i + 5);
      data := data + [value];
      i := i + 5;
    }
  }

  lemma NoBits()
    ensures Bits5([]) == [] && Bits8([]) == [] && Acc([]) == 0
  {
  }

  lemma OneGroup(data: seq<bv8>, value: bv8)
    ensures Bits5(data + [value]) == Bits5(data) + BitsOf5(value)
  {
    assert (data + [value])[..|data|] == data;
  }

  lemma OneByte(data: seq<bv8>, value: bv8)
    ensures Bits8(data + [value]) == Bits8(data) + BitsOf8(value)
  {
    assert (data + [value])[..|data|] == data;
  }

  /** The groups are whole bytes, and at most four more bits, all zero. */
  ghost predicate Pulls(bits: seq<bool>) {
    |bits| % 8 < 5 && forall i :: |bits| - |bits| % 8 <= i < |bits| ==> !bits[i]
  }

  /** `bech32_pull_bits`, onto an empty array. */
  method PullBits(src: seq<bv8>, nbits: nat) returns (data: Option<seq<bv8>>)
    requires nbits <= 5 * |src|
    ensures data.Some? <==> Pulls(Bits5(src)[..nbits])
    ensures data.Some? ==> Bits8(data.value) == Bits5(src)[..nbits - nbits % 8]
  {
    hide Bits8, Bits5, BitsOf5, BitsOf8, Acc, ShiftIn;
    ghost var bits := Bits5(src)[..nbits];
    var pad := nbits % 8;
    if pad >= 5 { return None; }
    var out := [];
    NoBits();
    var i := 0;
    while i + 8 <= nbits
      invariant i == 8 * |out| && i <= nbits && Bits8(out) == bits[..i]
    {
      var value: bv8 := 0;
      ghost var group: seq<bool> := [];
      for b := 0 to 8
        invariant group == bits[i..i + b] && value == Acc(group)
      {
        GetU5BitIs(src, i + b);
        AccOne(group, bits[i + b]);
        value := ShiftIn(value, GetU5Bit(src, i + b));
        group := group + [bits[i + b]];
      }
      AccEight(group);
      OneByte(out, value);
      assert bits[..i] + group == bits[..i + 8];
      out := out + [value];
      i := i + 8;
    }
    assert i == nbits - pad;
    for b := 0 to pad
      invariant forall j :: i <= j < i + b ==> !bits[j]
    {
      GetU5BitIs(src, i + b);
      if GetU5Bit(src, i + b) { return None; }
    }
    assert bits[..i] == Bits5(src)[..i];
    return Some(out);
  }

  /** Groups that hold whole bytes: the bits beyond the bytes are few and zero. */
  lemma GroupsPull(bits: seq<bool>, groups: seq<bool>, n: nat)
    requires |bits| == 8 * n && |bits| <= |groups| < |bits| + 5 && groups == Padded(bits, |groups|)
    ensures Pulls(groups) && |groups| - |groups| % 8 == 8 * n && |groups| / 8 == n && groups[..8 * n] == bits
  {
    assert |groups| % 8 == |groups| - 8 * n;
  }

  /** Pushed bytes are pulled back whole. */
  lemma PullOfPush(bytes: seq<bv8>, data: seq<bv8>)
    requires Holds(data, Bits8(bytes))
    ensures var groups := Bits5(data);
            Pulls(groups) && |groups| / 8 == |bytes| && groups[..|groups| - |groups| % 8] == Bits8(bytes)
  {
    hide Padded, Pulls, AllValues, Bits8, Bits5, Holds;
    HoldsMeans(data, Bits8(bytes));
    GroupsPull(Bits8(bytes), Bits5(data), |bytes|);
  }

  lemma HoldsMeans(data: seq<bv8>, bits: seq<bool>)
    requires Holds(data, bits)
    ensures |bits| <= |Bits5(data)| < |bits| + 5 && Bits5(data) == Padded(bits, |Bits5(data)|)
  {
    hide Padded, AllValues, Bits5;
  }

  /** Whatever has the bits that come back is the bytes that went in. */
  lemma BytesComeBack(bytes: seq<bv8>, data: seq<bv8>, again: seq<bv8>)
    requires Holds(data, Bits8(bytes))
    requires Bits8(again) == Bits5(data)[..|Bits5(data)| - |Bits5(data)| % 8]
    ensures again == bytes
  {
    hide Bits8, Bits5, Holds;
    PullOfPush(bytes, data);
    Bits8Tell(again, bytes);
  }

  /** What can be pulled is what pushing gives. */
  lemma PushOfPull(data: seq<bv8>, bytes: seq<bv8>)
    requires AllValues(data) && Pulls(Bits5(data))
    requires Bits8(bytes) == Bits5(data)[..|Bits5(data)| - |Bits5(data)| % 8]
    ensures Holds(data, Bits8(bytes))
  {
    hide Bits8, Bits5;
  }

  // ---- Text without a checksum

  datatype Text = Text(hrp: seq<bv8>, data: seq<bv8>)

  /** The string that C sees: what comes before the first zero byte. */
  function CString(s: seq<bv8>): (r: seq<bv8>)
    ensures 0 !in r
    ensures |r| <= |s| && (r == s <==> 0 !in s) && (|r| == |s| ==> r == s)
  {
    if s == [] || s[0] == 0 then []
    else
      var rest := CString(s[1..]);
      assert s == [s[0]] + s[1..];
      [s[0]] + rest
  }

  /** Where the first separator is, or the length if there is none. */
  function FirstSeparator(s: seq<bv8>): (n: nat)
    ensures n <= |s| && SEPARATOR !in s[..n] && (n < |s| ==> s[n] == SEPARATOR)
  {
    if s == [] || s[0] == SEPARATOR then 0
    else
      var n := 1 + FirstSeparator(s[1..]);
      assert s[..n] == [s[0]] + s[1..][..n - 1];
      n
  }

  /** The part before the separator as it is kept, and the part after it. */
  function HrpPart(text: seq<bv8>): seq<bv8> {
    CString(text[..FirstSeparator(text)])
  }

  function DataPart(text: seq<bv8>): seq<bv8> {
    if FirstSeparator(text) == |text| then [] else text[FirstSeparator(text) + 1..]
  }

  /**
    What `from_bech32_charset` accepts: a separator, characters of the set, one case, and padding that is short and
    zero.
   */
  ghost predicate Accepted(text: seq<bv8>) {
    && FirstSeparator(text) < |text|
    && Values(DataPart(text)).Some?
    && !((HasUpper(HrpPart(text)) || HasUpper(DataPart(text))) && (HasLower(HrpPart(text)) || HasLower(DataPart(text))))
    && Pulls(Bits5(Values(DataPart(text)).value))
  }

  /** The bytes that the groups after the separator hold. */
  ghost predicate IsData(text: seq<bv8>, data: seq<bv8>)
    requires Values(DataPart(text)).Some?
  {
    var bits := Bits5(Values(DataPart(text)).value);
    Bits8(data) == bits[..|bits| - |bits| % 8]
  }

  /** The lower-case form, and the cases it had. */
  method FixCase(part: seq<bv8>) returns (fixed: seq<bv8>, lower: bool, upper: bool)
    ensures fixed == Lowered(part) && lower == HasLower(part) && upper == HasUpper(part)
  {
    hide IsUpper, IsLower, HasUpper, HasLower, Lowered, ToLower;
    fixed, lower, upper := [], false, false;
    NothingLowered();
    assert part[..0] == [];
    for i := 0 to |part|
      invariant fixed == Lowered(part[..i]) && lower == HasLower(part[..i]) && upper == HasUpper(part[..i])
    {
      LoweredOneMore(part, i);
      CaseOneMore(part, i);
      OneCase(part[i]);
      if IsUpper(part[i]) {
        upper := true;
        fixed := fixed + [ToLower(part[i])];
      } else {
        if IsLower(part[i]) {
          lower := true;
        }
        fixed := fixed + [part[i]];
      }
    }
    assert part[..|part|] == part;
  }

  /** `from_bech32_charset`. */
  method FromCharset(text: seq<bv8>) returns (r: Option<Text>)
    ensures r.Some? <==> Accepted(text)
    ensures r.Some? ==> r.value.hrp == Lowered(HrpPart(text)) && IsData(text, r.value.data)
  {
    hide CString, FirstSeparator, HasUpper, HasLower, Lowered, Values, Pulls, Bits5, Bits8;
    var n := FirstSeparator(text);
    if n == |text| { return None; }
    var hrp, lower, upper := FixCase(CString(text[..n]));
    var vs, lower', upper', _ := ReadValues(text[n + 1..], 1);
    if vs.None? { return None; }
    if (upper || upper') && (lower || lower') { return None; }
    var bits := 5 * |vs.value|;
    var data := PullBits(vs.value, bits);
    assert Bits5(vs.value)[..bits] == Bits5(vs.value);
    if data.None? { return None; }
    return Some(Text(hrp, data.value));
  }

  /** `text` is the human-readable part, the separator, and the data in groups of five bits, a character each. */
  ghost predicate IsText(text: seq<bv8>, hrp: seq<bv8>, data: seq<bv8>) {
    exists groups :: Holds(groups, Bits8(data)) && text == hrp + [SEPARATOR] + Chars(groups)
  }

  /** `to_bech32_charset`. */
  method ToCharset(hrp: seq<bv8>, data: seq<bv8>) returns (text: seq<bv8>)
    ensures IsText(text, CString(hrp), data)
  {
    hide CString, Bits8, Bits5, Charset, Chars, Padded;
    var vs := PushBits(data, 8 * |data|);
    assert Bits8(data)[..8 * |data|] == Bits8(data);
    text := CString(hrp) + [SEPARATOR];
    ghost var head := text;
    assert vs[..0] == [];
    NothingFed(0);
    for i := 0 to |vs|
      invariant AllValues(vs[..i]) && text == head + Chars(vs[..i])
    {
      CharsOneMore(vs, i);
      text := text + [Charset(vs[i])];
    }
    assert vs[..|vs|] == vs;
    assert Holds(vs, Bits8(data)) && text == CString(hrp) + [SEPARATOR] + Chars(vs);
  }

  lemma OneHolding(s: seq<bv8>, t: seq<bv8>, bits: seq<bool>)
    requires Holds(s, bits) && Holds(t, bits)
    ensures s == t
  {
    hide Bits5, Padded;
    Bits5Tell(s, t);
  }

  lemma {:induction false} CharsOfValues(part: seq<bv8>)
    requires Values(part).Some?
    ensures AllValues(Values(part).value) && Chars(Values(part).value) == Lowered(part)
    decreases |part|
  {
    hide Charset, CharsetRev, ToLower;
    if part != [] {
      var n := |part| - 1;
      CharsOfValues(part[..n]);
      CharsetOfRev(part[n]);
      var vs := Values(part).value;
      assert vs[..n] == Values(part[..n]).value && vs[..n + 1] == vs;
      CharsOneMore(vs, n);
      LoweredOneMore(part, n);
      assert part[..n + 1] == part;
    }
  }

  lemma LoweredKeeps(part: seq<bv8>)
    requires 0 !in part
    ensures 0 !in Lowered(part) && CString(Lowered(part)) == Lowered(part)
  {
    forall i | 0 <= i < |part| ensures Lowered(part)[i] != 0 {
      assert part[i] in part;
      LowerIsNotZero(part[i]);
    }
  }

  lemma LowerIsNotZero(c: bv8)
    requires c != 0
    ensures ToLower(c) != 0
  {
  }

  lemma LoweredText(text: seq<bv8>, n: nat)
    requires n < |text| && text[n] == SEPARATOR
    ensures Lowered(text) == Lowered(text[..n]) + [SEPARATOR] + Lowered(text[n + 1..])
    ensures |Lowered(text)| == |text|
  {
    assert ToLower(SEPARATOR) == SEPARATOR;
    hide ToLower;
  }

  /**
    A text that is accepted is encoded again to its lower-case form, if and only if there is no zero byte
    before the separator: the human-readable part is cut off there.
   */
  method Reencode(text: seq<bv8>) returns (again: Option<seq<bv8>>)
    ensures again.Some? <==> Accepted(text)
    ensures again.Some? ==> again.value == Lowered(HrpPart(text)) + [SEPARATOR] + Lowered(DataPart(text))
    ensures again.Some? ==> (again.value == Lowered(text) <==> 0 !in text[..FirstSeparator(text)])
  {
    hide CString, Bits8, Bits5, Padded, Chars, Values, Lowered, Pulls, HasUpper, HasLower, AllValues;
    var r := FromCharset(text);
    if r.None? { return None; }
    var out := ToCharset(r.value.hrp, r.value.data);
    ghost var groups :| Holds(groups, Bits8(r.value.data)) && out == CString(r.value.hrp) + [SEPARATOR] + Chars(groups);
    ghost var vs := Values(DataPart(text)).value;
    CharsOfValues(DataPart(text));
    PushOfPull(vs, r.value.data);
    OneHolding(vs, groups, Bits8(r.value.data));
    LoweredKeeps(HrpPart(text));
    again := Some(out);
    ghost var n := FirstSeparator(text);
    LoweredText(text, n);
    LoweredLength(HrpPart(text));
    LoweredLength(DataPart(text));
  }

  lemma LoweredLength(part: seq<bv8>)
    ensures |Lowered(part)| == |part|
  {
  }
}
