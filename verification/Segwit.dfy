/** Segwit addresses: a witness version and program as Bech32 or Bech32m text. */
module Segwit {
  import opened Sides
  import opened Bech32
  import opened Bech32Checks
  import Amounts
  import BitGroups

  // ---- Bytes as numbers

  function NatOf(x: bv8): nat {
    x as nat
  }

  function ByteOf(n: nat): bv8
    requires n < 256
  {
    if n == 0 then 0 else ByteOf(n - 1) + 1
  }

  lemma NatOfNext(x: bv8)
    ensures NatOf(x) < 256 && (NatOf(x) < 255 ==> NatOf(x + 1) == NatOf(x) + 1)
  {
  }

  lemma NatOfTells(x: bv8, y: bv8)
    requires NatOf(x) == NatOf(y)
    ensures x == y
  {
  }

  lemma {:induction false} ByteIsNat(n: nat)
    requires n < 256
    ensures NatOf(ByteOf(n)) == n
  {
    if n == 0 {
      assert NatOf(0) == 0;
    } else {
      hide NatOf;
      ByteIsNat(n - 1);
      NatOfNext(ByteOf(n - 1));
    }
  }

  lemma NatIsByte(x: bv8)
    ensures NatOf(x) < 256 && ByteOf(NatOf(x)) == x
  {
    hide NatOf, ByteOf;
    NatOfNext(x);
    ByteIsNat(NatOf(x));
    NatOfTells(ByteOf(NatOf(x)), x);
  }

  lemma SmallByte(x: bv8)
    ensures x < 32 <==> NatOf(x) < 32
  {
  }

  function Nats(s: seq<bv8>): (r: seq<nat>)
    ensures |r| == |s| && forall i :: 0 <= i < |s| ==> r[i] == NatOf(s[i])
  {
    seq(|s|, i requires 0 <= i < |s| => NatOf(s[i]))
  }

  function Bytes(s: seq<nat>): (r: seq<bv8>)
    requires forall i :: 0 <= i < |s| ==> s[i] < 256
    ensures |r| == |s| && forall i :: 0 <= i < |s| ==> r[i] == ByteOf(s[i])
  {
    seq(|s|, i requires 0 <= i < |s| => ByteOf(s[i]))
  }

  lemma NatsOfBytes(s: seq<nat>)
    requires forall i :: 0 <= i < |s| ==> s[i] < 256
    ensures Nats(Bytes(s)) == s
  {
    hide NatOf, ByteOf;
    forall i | 0 <= i < |s| ensures Nats(Bytes(s))[i] == s[i] {
      ByteIsNat(s[i]);
    }
  }

  lemma NatsTell(s: seq<bv8>, t: seq<bv8>)
    requires Nats(s) == Nats(t)
    ensures s == t
  {
    hide NatOf, ByteOf;
    assert |s| == |Nats(s)| == |t|;
    forall i | 0 <= i < |s| ensures s[i] == t[i] {
      assert Nats(s)[i] == Nats(t)[i];
      NatIsByte(s[i]);
      NatIsByte(t[i]);
    }
  }

  lemma NatsAreDigits(s: seq<bv8>)
    ensures BitGroups.Digits(Nats(s), 8)
    ensures AllValues(s) <==> BitGroups.Digits(Nats(s), 5)
  {
    hide NatOf, ByteOf;
    assert Amounts.Pow2(8) == 256 && Amounts.Pow2(5) == 32;
    forall i | 0 <= i < |s| ensures Nats(s)[i] < 256 && (s[i] < 32 <==> Nats(s)[i] < 32) {
      NatIsByte(s[i]);
      SmallByte(s[i]);
    }
  }

  // ---- Programs in groups of five bits

  /** `five` is the program's bits in groups of five, the last filled up with zeros. */
  ghost predicate IsFive(prog: seq<bv8>, five: seq<bv8>) {
    BitGroups.PaddedUp(Nats(prog), 8, Nats(five), 5)
  }

  /** `prog` is what whole bytes the groups hold, and nothing but a few zero bits is left over. */
  ghost predicate IsProgram(five: seq<bv8>, prog: seq<bv8>) {
    BitGroups.CutDown(Nats(five), 5, Nats(prog), 8)
  }

  lemma ProgramOfFive(prog: seq<bv8>, five: seq<bv8>)
    ensures IsFive(prog, five) ==> IsProgram(five, prog) && AllValues(five)
    ensures AllValues(five) && IsProgram(five, prog) ==> IsFive(prog, five)
  {
    NatsAreDigits(prog);
    NatsAreDigits(five);
    hide BitGroups.Number, Amounts.Pow2, BitGroups.Digits, Nats, AllValues;
  }

  lemma FiveIsUnique(prog: seq<bv8>, a: seq<bv8>, b: seq<bv8>)
    requires IsFive(prog, a) && IsFive(prog, b)
    ensures a == b
  {
    hide BitGroups.Number, Amounts.Pow2, BitGroups.Digits, Nats;
    assert |a| == |b|;
    BitGroups.NumberTells(Nats(a), Nats(b), 5);
    NatsTell(a, b);
  }

  lemma ProgramIsUnique(five: seq<bv8>, a: seq<bv8>, b: seq<bv8>)
    requires IsProgram(five, a) && IsProgram(five, b)
    ensures a == b
  {
    hide BitGroups.CutDown, Nats;
    BitGroups.CutIsUnique(Nats(five), Nats(a), Nats(b));
    NatsTell(a, b);
  }

  /** How many groups of five bits `n` bytes take. */
  function Groups(n: nat): nat {
    (8 * n + 4) / 5
  }

  lemma FiveLength(prog: seq<bv8>, five: seq<bv8>)
    requires IsFive(prog, five)
    ensures |five| == Groups(|prog|)
  {
    hide BitGroups.Number, Amounts.Pow2, BitGroups.Digits, Nats;
  }

  // ---- Addresses

  predicate GoodLength(witver: int, n: nat) {
    2 <= n <= 40 && (witver == 0 ==> n == 20 || n == 32)
  }

  function EncodingFor(witver: int): Encoding {
    if witver > 0 then Bech32m else Encoding.Bech32
  }

  /** What a C conversion to one byte makes of the version. */
  function VersionByte(witver: int): bv8 {
    ByteOf(witver % 256)
  }

  /** `segwit_addr_encode`. */
  method Encode(hrp: seq<bv8>, witver: int, prog: seq<bv8>) returns (out: Option<seq<bv8>>, ghost five: seq<bv8>)
    ensures IsFive(prog, five) && AllValues([VersionByte(witver)] + five) == (witver % 256 < 32)
    ensures out.Some? <==> && witver <= 16 && witver % 256 < 32 && GoodLength(witver, |prog|)
                           && ValidHrp(hrp) && |hrp| + 8 + Groups(|prog|) <= 90
    ensures out.Some? ==> out.value == Encoded(hrp, [VersionByte(witver)] + five, EncodingFor(witver))
  {
    hide Encoded, ValidHrp, Nats, BitGroups.Digits, BitGroups.PaddedUp, NatOf, ByteOf;
    NatsAreDigits(prog);
    var padded := BitGroups.ConvertBits(Nats(prog), 8, 5, true);
    BitGroups.PaddedIsDigits(Nats(prog), padded.value);
    DigitsAreSmall(padded.value);
    var groups := Bytes(padded.value);
    NatsOfBytes(padded.value);
    five := groups;
    ProgramOfFive(prog, five);
    FiveLength(prog, five);
    FirstValue(witver, five);
    hide IsFive;
    if witver > 16 { return None, five; }
    if witver == 0 && |prog| != 20 && |prog| != 32 { return None, five; }
    if |prog| < 2 || |prog| > 40 { return None, five; }
    var enc := Encoding.Bech32;
    if witver > 0 {
      enc := Bech32m;
    }
    hide AllValues;
    out := Bech32.Encode(hrp, [VersionByte(witver)] + groups, 90, enc);
  }

  lemma DigitsAreSmall(s: seq<nat>)
    requires BitGroups.Digits(s, 5) || BitGroups.Digits(s, 8)
    ensures forall i :: 0 <= i < |s| ==> s[i] < 256
  {
    assert Amounts.Pow2(5) == 32 && Amounts.Pow2(8) == 256;
  }

  lemma FirstValue(witver: int, five: seq<bv8>)
    requires AllValues(five)
    ensures AllValues([VersionByte(witver)] + five) == (witver % 256 < 32)
  {
    hide NatOf, ByteOf;
    ByteIsNat(witver % 256);
    SmallByte(VersionByte(witver));
    assert ([VersionByte(witver)] + five)[0] == VersionByte(witver);
  }

  /** The address is of this network, version and program. */
  ghost predicate IsAddress(hrp: seq<bv8>, addr: seq<bv8>, witver: nat, prog: seq<bv8>) {
    var d := Decoding(addr, 90);
    && d.Some? && d.value.hrp == hrp && 0 < |d.value.data| <= 65
    && NatOf(d.value.data[0]) == witver <= 16 && d.value.enc == EncodingFor(witver)
    && IsProgram(d.value.data[1..], prog) && GoodLength(witver, |prog|)
  }

  datatype Address = Address(witver: nat, prog: seq<bv8>)

  /** `segwit_addr_decode`. */
  method Decode(hrp: seq<bv8>, addr: seq<bv8>) returns (r: Option<Address>)
    ensures r.Some? ==> IsAddress(hrp, addr, r.value.witver, r.value.prog)
    ensures r.None? ==> forall witver: nat, prog: seq<bv8> :: !IsAddress(hrp, addr, witver, prog)
  {
    hide Decoding, Nats, BitGroups.Digits, BitGroups.CutDown, NatOf, ByteOf;
    var d := Bech32.Decode(addr, 90);
    if d.None? { return None; }
    var data := d.value.data;
    if data == [] || |data| > 65 { return None; }
    if d.value.hrp != hrp { return None; }
    var witver := NatOf(data[0]);
    if witver > 16 { return None; }
    if witver == 0 && d.value.enc != Encoding.Bech32 { return None; }
    if witver > 0 && d.value.enc != Bech32m { return None; }
    RestAreDigits(addr, data);
    var back := BitGroups.ConvertBits(Nats(data[1..]), 5, 8, false);
    if back.None? { return None; }
    BytesAreDigits(Nats(data[1..]), back.value);
    DigitsAreSmall(back.value);
    var prog := Bytes(back.value);
    NatsOfBytes(back.value);
    assert IsProgram(data[1..], prog);
    forall other: seq<bv8> | IsProgram(data[1..], other) ensures other == prog {
      ProgramIsUnique(data[1..], other, prog);
    }
    hide IsProgram;
    if |prog| < 2 || |prog| > 40 { return None; }
    if witver == 0 && |prog| != 20 && |prog| != 32 { return None; }
    return Some(Address(witver, prog));
  }

  lemma RestAreDigits(addr: seq<bv8>, data: seq<bv8>)
    requires Decoding(addr, 90).Some? && Decoding(addr, 90).value.data == data && data != []
    ensures BitGroups.Digits(Nats(data[1..]), 5)
  {
    hide Decoding, Encoded, ValidHrp, Lowered, Nats, BitGroups.Digits;
    EncodeOfDecode(addr, 90);
    NatsAreDigits(data[1..]);
  }

  lemma BytesAreDigits(five: seq<nat>, out: seq<nat>)
    requires BitGroups.CutDown(five, 5, out, 8)
    ensures BitGroups.Digits(out, 8)
  {
  }

  // ---- Round trips

  lemma EncodedIsAddress(hrp: seq<bv8>, witver: nat, prog: seq<bv8>, five: seq<bv8>)
    requires IsFive(prog, five) && witver <= 16 && GoodLength(witver, |prog|)
    requires hrp != [] && ValidHrp(hrp) && |hrp| + 8 + Groups(|prog|) <= 90 && AllValues([VersionByte(witver)] + five)
    ensures IsAddress(hrp, Encoded(hrp, [VersionByte(witver)] + five, EncodingFor(witver)), witver, prog)
  {
    hide Decoding, Encoded, ValidHrp, AllValues, IsProgram, NatOf, ByteOf;
    FiveLength(prog, five);
    ProgramOfFive(prog, five);
    hide IsFive;
    var data := [VersionByte(witver)] + five;
    DecodeOfEncode(hrp, data, EncodingFor(witver), 90);
    ByteIsNat(witver);
    assert data[1..] == five;
  }

  lemma AddressIsUnique(hrp: seq<bv8>, addr: seq<bv8>, v: nat, prog: seq<bv8>, w: nat, other: seq<bv8>)
    requires IsAddress(hrp, addr, v, prog) && IsAddress(hrp, addr, w, other)
    ensures v == w && prog == other
  {
    hide Decoding, NatOf, IsProgram;
    ProgramIsUnique(Decoding(addr, 90).value.data[1..], prog, other);
  }

  /**
    What is encoded is decoded again, for every network, version and program that can be encoded, if and only if the
    human-readable part is not empty and the version is not negative.
   */
  method EncodeThenDecode(hrp: seq<bv8>, witver: int, prog: seq<bv8>)
    returns (text: Option<seq<bv8>>, back: Option<Address>)
    ensures text.Some? && hrp != [] && 0 <= witver ==> back == Some(Address(witver, prog))
    ensures back.Some? && back.value.witver == witver && back.value.prog == prog ==>
            text.Some? && hrp != [] && 0 <= witver
  {
    hide Encoded, ValidHrp, AllValues, IsFive, IsAddress;
    ghost var five;
    text, five := Encode(hrp, witver, prog);
    if text.None? { return None, None; }
    back := Decode(hrp, text.value);
    if hrp != [] && 0 <= witver {
      EncodedIsAddress(hrp, witver, prog, five);
      if back.Some? { AddressIsUnique(hrp, text.value, witver, prog, back.value.witver, back.value.prog); }
    } else if hrp == [] {
      DecodeOfEncode(hrp, [VersionByte(witver)] + five, EncodingFor(witver), 90) by { FiveLength(prog, five); }
      NoAddress(hrp, text.value, back);
    }
  }

  lemma NoAddress(hrp: seq<bv8>, addr: seq<bv8>, r: Option<Address>)
    requires Decoding(addr, 90).None? && (r.Some? ==> IsAddress(hrp, addr, r.value.witver, r.value.prog))
    ensures r.None?
  {
  }

  /** What is decoded is encoded again to its lower-case form. */
  method DecodeThenEncode(hrp: seq<bv8>, addr: seq<bv8>) returns (r: Option<Address>, again: Option<seq<bv8>>)
    ensures r.Some? ==> again == Some(Lowered(addr))
  {
    hide Encoded, ValidHrp, AllValues, IsFive, Lowered;
    r := Decode(hrp, addr);
    if r.None? { return None, None; }
    ghost var five;
    again, five := Encode(hrp, r.value.witver, r.value.prog);
    AddressIsEncoded(hrp, addr, r.value.witver, r.value.prog, five);
  }

  lemma AddressIsEncoded(hrp: seq<bv8>, addr: seq<bv8>, witver: nat, prog: seq<bv8>, five: seq<bv8>)
    requires IsAddress(hrp, addr, witver, prog) && IsFive(prog, five)
    ensures ValidHrp(hrp) && |hrp| + 8 + Groups(|prog|) <= 90 && AllValues([VersionByte(witver)] + five)
    ensures Encoded(hrp, [VersionByte(witver)] + five, EncodingFor(witver)) == Lowered(addr)
  {
    hide Decoding, Encoded, ValidHrp, Lowered, NatOf, ByteOf;
    var data := Decoding(addr, 90).value.data;
    EncodeOfDecode(addr, 90);
    AddressLength(addr);
    NatIsByte(data[0]);
    assert AllValues(data[1..]);
    ProgramOfFive(prog, data[1..]);
    FiveIsUnique(prog, five, data[1..]);
    FiveLength(prog, five);
    assert data == [data[0]] + data[1..];
  }

  lemma AddressLength(addr: seq<bv8>)
    requires Decoding(addr, 90).Some?
    ensures |addr| <= 90
  {
    hide Poly, Values, AllPrintable, HasLower, HasUpper, AfterSeparator, EncodingOf, HrpPoly, Lowered;
  }
}
