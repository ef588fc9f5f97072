/**
  Building a commitment transaction: its outputs, the map that says which HTLC each output is for, and
  the second-stage transactions.  Scripts are named by what they pay; which HTLCs are trimmed and what
  the base fee is are parameters.
 */
module CommitTx {
  import opened Sides
  import opened HtlcStates
  import opened Sums
  import opened ChannelState
  import opened Admission
  import opened Runs
  import opened Solvency
  import opened Settlement

  /** Whom an output pays; `HtlcOut(i)` is the script of HTLC `i`, offered or received. */
  datatype Payee = HtlcOut(i: nat, offered: bool) | ToLocal | ToRemote | LocalAnchor | RemoteAnchor

  /** An entry of `htlcmap`: an HTLC, nothing, or one of the dummies that are recognized after sorting. */
  datatype Mark = OfHtlc(i: nat) | Nothing | DummyToLocal | DummyToRemote | DummyOtherAnchor

  /** What `permute_outputs` moves together: an output in satoshi, its map entry and its tie-breaker. */
  datatype Slot = Slot(payee: Payee, amount: nat, script: nat, mark: Mark, cltv: nat)

  /** What the transaction is built from; `script` stands for the bytes of an output's script. */
  datatype Spec = Spec(
    htlcs: seq<Htlc>,
    side: Side,
    opener: Side,
    dust: nat,
    anchors: bool,
    direct: bool,
    trims: Htlc -> bool,
    baseFee: nat -> nat,
    script: Payee -> nat)
  {
    predicate Pays(i: nat) {
      i < |htlcs| && !trims(htlcs[i])
    }
  }

  const ANCHOR_SAT := 330

  // ---- Counting and adding up slots

  ghost function SumOf(s: seq<Slot>, f: Slot -> int): int {
    if s == [] then 0 else SumOf(s[..|s| - 1], f) + f(s[|s| - 1])
  }

  lemma SumOfOneMore(s: seq<Slot>, x: Slot, f: Slot -> int)
    ensures SumOf(s + [x], f) == SumOf(s, f) + f(x)
  {
    assert (s + [x])[..|s|] == s;
  }

  lemma {:induction false} SumOfConcat(s: seq<Slot>, t: seq<Slot>, f: Slot -> int)
    ensures SumOf(s + t, f) == SumOf(s, f) + SumOf(t, f)
    decreases |t|
  {
    if t == [] {
      assert s + t == s;
    } else {
      var u, x := t[..|t| - 1], t[|t| - 1];
      assert s + t == (s + u) + [x];
      SumOfConcat(s, u, f);
      SumOfOneMore(s + u, x, f);
    }
  }

  lemma TakeOut(u: seq<Slot>, a: seq<Slot>, b: seq<Slot>, x: Slot)
    requires multiset(u + [x]) == multiset(a + [x] + b)
    ensures multiset(u) == multiset(a + b)
  {
    assert multiset(u + [x]) - multiset{x} == multiset(u);
    assert multiset(a + [x] + b) - multiset{x} == multiset(a + b);
  }

  /** A sum does not depend on the order. */
  lemma {:induction false} SumOfOrder(s: seq<Slot>, t: seq<Slot>, f: Slot -> int)
    requires multiset(s) == multiset(t)
    ensures SumOf(s, f) == SumOf(t, f)
    decreases |s|
  {
    if s == [] {
      assert |multiset(t)| == 0;
      assert t == [];
    } else {
      var u, x := s[..|s| - 1], s[|s| - 1];
      assert s == u + [x];
      assert x in multiset(t);
      var j :| 0 <= j < |t| && t[j] == x;
      var a, b := t[..j], t[j + 1..];
      assert t == a + [x] + b;
      TakeOut(u, a, b, x);
      SumOfOrder(u, a + b, f);
      SumOfConcat(a, b, f);
      SumOfConcat(a + [x], b, f);
      SumOfOneMore(a, x, f);
      SumOfOneMore(u, x, f);
    }
  }

  function Amount(): Slot -> int {
    (s: Slot) => s.amount
  }

  function IsFor(i: nat): Slot -> int {
    (s: Slot) => if s.mark == OfHtlc(i) then 1 else 0
  }

  // ---- Sorting

  /** `output_better`: by amount, then script, then expiry. */
  predicate Better(a: Slot, b: Slot) {
    || a.amount < b.amount
    || (a.amount == b.amount && (a.script < b.script || (a.script == b.script && a.cltv < b.cltv)))
  }

  predicate SortedTo(s: seq<Slot>, n: nat) {
    forall i, j :: 0 <= i < n && i < j < |s| ==> !Better(s[j], s[i])
  }

  /** `find_best_out`, from `from` on. */
  method FindBest(slots: array<Slot>, start: nat) returns (best: nat)
    requires start < slots.Length
    ensures start <= best < slots.Length
    ensures forall j :: start <= j < slots.Length ==> !Better(slots[j], slots[best])
  {
    best := start;
    for i := start + 1 to slots.Length
      invariant start <= best < slots.Length
      invariant forall j :: start <= j < i ==> !Better(slots[j], slots[best])
    {
      if Better(slots[i], slots[best]) {
        best := i;
      }
    }
  }

  lemma SwapKeepsMultiset(s: seq<Slot>, i: nat, j: nat)
    requires i < |s| && j < |s|
    ensures multiset(s[i := s[j]][j := s[i]]) == multiset(s)
  {
  }

  /** `permute_outputs`: a selection sort that moves outputs, map and expiries together. */
  method PermuteOutputs(slots: array<Slot>)
    modifies slots
    ensures multiset(slots[..]) == multiset(old(slots[..]))
    ensures SortedTo(slots[..], slots.Length)
  {
    if slots.Length == 0 { return; }
    for i := 0 to slots.Length - 1
      invariant multiset(slots[..]) == multiset(old(slots[..]))
      invariant SortedTo(slots[..], i)
    {
      var best := FindBest(slots, i);
      ghost var before := slots[..];
      SwapKeepsMultiset(before, i, best);
      slots[i], slots[best] := slots[best], slots[i];
      assert slots[..] == before[i := before[best]][best := before[i]];
      SwapKeepsSorted(before, i, best);
    }
  }

  lemma SwapKeepsSorted(s: seq<Slot>, i: nat, best: nat)
    requires i <= best < |s| && SortedTo(s, i)
    requires forall j :: i <= j < |s| ==> !Better(s[j], s[best])
    ensures SortedTo(s[i := s[best]][best := s[i]], i + 1)
  {
  }

  // ---- Building

  /** `try_subtract_fee`: what is left of the two balances, in millisatoshi. */
  function AfterFee(pays: Pair<nat>, payer: Side, fee: nat): Pair<nat> {
    With(pays, payer, if pays.At(payer) < fee * 1000 then 0 else pays.At(payer) - fee * 1000)
  }

  /** `try_subtract_fee`. */
  method TrySubtractFee(pays: Pair<nat>, payer: Side, fee: nat) returns (left: Pair<nat>, paid: bool)
    ensures paid <==> fee * 1000 <= pays.At(payer)
    ensures left.At(payer.Other()) == pays.At(payer.Other())
    ensures paid ==> left.At(payer) + fee * 1000 == pays.At(payer)
    ensures !paid ==> left.At(payer) == 0
    ensures left == AfterFee(pays, payer, fee)
  {
    if pays.At(payer) >= fee * 1000 {
      return With(pays, payer, pays.At(payer) - fee * 1000), true;
    }
    return With(pays, payer, 0), false;
  }

  /** The balance that pays the fee: `Local` is the owner of the transaction. */
  function Payer(spec: Spec): Side {
    if spec.opener == spec.side then Local else Remote
  }

  /** The output of HTLC `i`. */
  function HtlcSlot(spec: Spec, i: nat): Slot
    requires i < |spec.htlcs|
  {
    var h := spec.htlcs[i];
    var payee := HtlcOut(i, Owner(h.state) == spec.side);
    Slot(payee, h.amount / 1000, spec.script(payee), OfHtlc(i), h.expiry)
  }

  /** Every slot with an HTLC in it is that HTLC's, and the HTLC is not trimmed. */
  ghost predicate Matched(spec: Spec, s: seq<Slot>) {
    forall n :: 0 <= n < |s| && s[n].mark.OfHtlc? ==> spec.Pays(s[n].mark.i) && s[n] == HtlcSlot(spec, s[n].mark.i)
  }

  /** The HTLCs of one direction among the first `n` that get an output. */
  predicate Added(spec: Spec, i: nat, n: nat, offered: bool) {
    i < n && spec.Pays(i) && (Owner(spec.htlcs[i].state) == spec.side) == offered
  }

  ghost function PaidOut(spec: Spec, n: nat, offered: bool): int
    requires n <= |spec.htlcs|
  {
    if n == 0 then 0
    else PaidOut(spec, n - 1, offered) + if Added(spec, n - 1, n, offered) then spec.htlcs[n - 1].amount / 1000 else 0
  }

  /** The slots of one of the two HTLC loops after `n` HTLCs. */
  ghost predicate HtlcSlots(spec: Spec, s: seq<Slot>, n: nat, offered: bool)
    requires n <= |spec.htlcs|
  {
    && Matched(spec, s)
    && (forall m :: 0 <= m < |s| ==> s[m].mark.OfHtlc?)
    && (forall i: nat :: SumOf(s, IsFor(i)) == if Added(spec, i, n, offered) then 1 else 0)
    && SumOf(s, Amount()) == PaidOut(spec, n, offered)
  }

  lemma HtlcSlotsOn(spec: Spec, s: seq<Slot>, n: nat, offered: bool)
    requires n < |spec.htlcs| && HtlcSlots(spec, s, n, offered)
    ensures HtlcSlots(spec, if Added(spec, n, n + 1, offered) then s + [HtlcSlot(spec, n)] else s, n + 1, offered)
  {
    if Added(spec, n, n + 1, offered) {
      var x := HtlcSlot(spec, n);
      SumOfOneMore(s, x, Amount());
      forall i: nat ensures SumOf(s + [x], IsFor(i)) == if Added(spec, i, n + 1, offered) then 1 else 0 {
        SumOfOneMore(s, x, IsFor(i));
      }
    }
  }

  /** The loop over offered HTLCs, or the one over received HTLCs. */
  method AddHtlcOutputs(spec: Spec, offered: bool) returns (s: seq<Slot>)
    ensures HtlcSlots(spec, s, |spec.htlcs|, offered)
  {
    s := [];
    hide HtlcSlots, Added, HtlcSlot;
    NoSlots(spec, offered);
    for n := 0 to |spec.htlcs|
      invariant HtlcSlots(spec, s, n, offered)
    {
      HtlcSlotsOn(spec, s, n, offered);
      AddedIs(spec, n, offered);
      var h := spec.htlcs[n];
      if (Owner(h.state) == spec.side) != offered { continue; }
      if spec.trims(h) { continue; }
      s := s + [HtlcSlot(spec, n)];
    }
  }

  lemma NoSlots(spec: Spec, offered: bool)
    ensures HtlcSlots(spec, [], 0, offered)
  {
  }

  lemma AddedIs(spec: Spec, n: nat, offered: bool)
    requires n < |spec.htlcs|
    ensures Added(spec, n, n + 1, offered) <==>
            (Owner(spec.htlcs[n].state) == spec.side) == offered && !spec.trims(spec.htlcs[n])
  {
  }

  ghost function NumUntrimmed(spec: Spec, n: nat): nat
    requires n <= |spec.htlcs|
  {
    if n == 0 then 0 else NumUntrimmed(spec, n - 1) + if spec.Pays(n - 1) then 1 else 0
  }

  /** `commit_tx_num_untrimmed`. */
  method CountUntrimmed(spec: Spec) returns (untrimmed: nat)
    ensures untrimmed == NumUntrimmed(spec, |spec.htlcs|)
  {
    untrimmed := 0;
    for n := 0 to |spec.htlcs|
      invariant untrimmed == NumUntrimmed(spec, n)
    {
      if !spec.trims(spec.htlcs[n]) {
        untrimmed := untrimmed + 1;
      }
    }
  }

  /** The dummies name the output they stand for. */
  predicate Named(spec: Spec, x: Slot) {
    && (x.mark.DummyOtherAnchor? <==> x.payee.RemoteAnchor?)
    && (x.mark.DummyToLocal? <==> spec.direct && x.payee.ToLocal?)
    && (x.mark.DummyToRemote? <==> spec.direct && x.payee.ToRemote?)
  }

  function Plain(spec: Spec, payee: Payee, amount: nat, mark: Mark): Slot {
    Slot(payee, amount, spec.script(payee), mark, 0)
  }

  /** The owner's balance, the other side's, and the anchors: each an output or none. */
  function LocalOut(spec: Spec, pays: Pair<nat>): seq<Slot> {
    if pays.local >= spec.dust * 1000
    then [Plain(spec, ToLocal, pays.local / 1000, if spec.direct then DummyToLocal else Nothing)] else []
  }

  function RemoteOut(spec: Spec, pays: Pair<nat>): seq<Slot> {
    if pays.remote >= spec.dust * 1000
    then [Plain(spec, ToRemote, pays.remote / 1000, if spec.direct then DummyToRemote else Nothing)] else []
  }

  function LocalAnchorOut(spec: Spec, wanted: bool): seq<Slot> {
    if spec.anchors && wanted then [Plain(spec, LocalAnchor, ANCHOR_SAT, Nothing)] else []
  }

  function RemoteAnchorOut(spec: Spec, wanted: bool): seq<Slot> {
    if spec.anchors && wanted then [Plain(spec, RemoteAnchor, ANCHOR_SAT, DummyOtherAnchor)] else []
  }

  function OtherOuts(spec: Spec, pays: Pair<nat>, untrimmed: nat): seq<Slot> {
    var local, remote := LocalOut(spec, pays), RemoteOut(spec, pays);
    local + remote + LocalAnchorOut(spec, local != [] || untrimmed != 0)
      + RemoteAnchorOut(spec, remote != [] || untrimmed != 0)
  }

  lemma SumOfOne(s: seq<Slot>, f: Slot -> int)
    requires |s| <= 1
    ensures SumOf(s, f) == if s == [] then 0 else f(s[0])
  {
    if s != [] { assert s[..0] == []; }
  }

  /** What a balance is paid, in satoshi. */
  function BalanceSats(spec: Spec, msat: nat): nat {
    if msat >= spec.dust * 1000 then msat / 1000 else 0
  }

  /** What the anchors are worth: one for each balance that is paid, both if there is an HTLC. */
  function AnchorSats(spec: Spec, left: Pair<nat>, untrimmed: nat): nat {
    if !spec.anchors then 0
    else
      (if left.local >= spec.dust * 1000 || untrimmed != 0 then ANCHOR_SAT else 0)
      + if left.remote >= spec.dust * 1000 || untrimmed != 0 then ANCHOR_SAT else 0
  }

  lemma OtherOutsAddUp(spec: Spec, left: Pair<nat>, untrimmed: nat)
    ensures SumOf(OtherOuts(spec, left, untrimmed), Amount()) ==
            BalanceSats(spec, left.local) + BalanceSats(spec, left.remote) + AnchorSats(spec, left, untrimmed)
  {
    var a, b := LocalOut(spec, left), RemoteOut(spec, left);
    var c, d := LocalAnchorOut(spec, a != [] || untrimmed != 0), RemoteAnchorOut(spec, b != [] || untrimmed != 0);
    SumOfOne(a, Amount());
    SumOfOne(b, Amount());
    SumOfOne(c, Amount());
    SumOfOne(d, Amount());
    hide SumOf;
    FourSums(a, b, c, d, Amount());
  }

  lemma OtherOutsAreNamed(spec: Spec, pays: Pair<nat>, untrimmed: nat)
    ensures var s := OtherOuts(spec, pays, untrimmed);
            AllNamed(spec, s) && forall n :: 0 <= n < |s| ==> !s[n].mark.OfHtlc?
  {
    var s := OtherOuts(spec, pays, untrimmed);
    forall n | 0 <= n < |s| ensures Named(spec, s[n]) && !s[n].mark.OfHtlc? {
    }
  }

  ghost function AmountTotal(htlcs: seq<Htlc>, n: nat): nat
    requires n <= |htlcs|
  {
    if n == 0 then 0 else AmountTotal(htlcs, n - 1) + htlcs[n - 1].amount
  }

  /** What the HTLC outputs are worth, and what trimming and rounding take from the HTLCs, in millisatoshi. */
  ghost function HtlcSats(spec: Spec, n: nat): nat
    requires n <= |spec.htlcs|
  {
    if n == 0 then 0 else HtlcSats(spec, n - 1) + if spec.Pays(n - 1) then spec.htlcs[n - 1].amount / 1000 else 0
  }

  ghost function HtlcsDropped(spec: Spec, n: nat): nat
    requires n <= |spec.htlcs|
  {
    if n == 0 then 0
    else
      HtlcsDropped(spec, n - 1)
      + if spec.Pays(n - 1) then spec.htlcs[n - 1].amount % 1000 else spec.htlcs[n - 1].amount
  }

  lemma {:induction false} PaidAndDropped(spec: Spec, n: nat)
    requires n <= |spec.htlcs|
    ensures PaidOut(spec, n, true) + PaidOut(spec, n, false) == HtlcSats(spec, n)
    ensures 1000 * HtlcSats(spec, n) + HtlcsDropped(spec, n) == AmountTotal(spec.htlcs, n)
  {
    if n > 0 { PaidAndDropped(spec, n - 1); }
  }

  lemma {:induction false} NoHtlcs(s: seq<Slot>, i: nat)
    requires forall n :: 0 <= n < |s| ==> !s[n].mark.OfHtlc?
    ensures SumOf(s, IsFor(i)) == 0
  {
    if s != [] { NoHtlcs(s[..|s| - 1], i); }
  }

  /** The fee the opener is charged. */
  function Charged(spec: Spec, untrimmed: nat): nat {
    spec.baseFee(untrimmed) + if spec.anchors then 2 * ANCHOR_SAT else 0
  }

  /** What all outputs together are worth. */
  ghost function Outputs(spec: Spec, left: Pair<nat>, untrimmed: nat): nat {
    HtlcSats(spec, |spec.htlcs|)
    + BalanceSats(spec, left.local) + BalanceSats(spec, left.remote) + AnchorSats(spec, left, untrimmed)
  }

  /** What is lost of the HTLCs and of the balance of the one who does not pay the fee. */
  ghost function Dropped(spec: Spec, pays: Pair<nat>): nat {
    var other := pays.At(Payer(spec).Other());
    HtlcsDropped(spec, |spec.htlcs|) + other - 1000 * BalanceSats(spec, other)
  }

  /** What the balances and the HTLCs leave of the funding to begin with. */
  ghost function Spare(spec: Spec, pays: Pair<nat>, funding: nat): int {
    funding * 1000 - pays.local - pays.remote - AmountTotal(spec.htlcs, |spec.htlcs|)
  }

  /** What is left of the balances after the fee. */
  ghost function LeftAfterFee(spec: Spec, pays: Pair<nat>): Pair<nat> {
    AfterFee(pays, Payer(spec), Charged(spec, NumUntrimmed(spec, |spec.htlcs|)))
  }

  /**
    The outputs are within the funding if and only if the opener's balance, and what is lost elsewhere, cover the
    anchors.  If the opener can pay the whole charge they leave at least the base fee.
   */
  lemma WithinFundingIff(spec: Spec, pays: Pair<nat>, funding: nat)
    requires 0 <= Spare(spec, pays, funding)
    ensures var untrimmed := NumUntrimmed(spec, |spec.htlcs|);
            var left := LeftAfterFee(spec, pays);
            && (Outputs(spec, left, untrimmed) <= funding <==>
                1000 * AnchorSats(spec, left, untrimmed)
                <= pays.At(Payer(spec)) + Dropped(spec, pays) + Spare(spec, pays, funding))
            && (Charged(spec, untrimmed) * 1000 <= pays.At(Payer(spec)) ==>
                Outputs(spec, left, untrimmed) + spec.baseFee(untrimmed) <= funding)
  {
    hide NumUntrimmed, HtlcSats, HtlcsDropped, AmountTotal;
    PaidAndDropped(spec, |spec.htlcs|);
  }

  /** The slots of a finished transaction: one per untrimmed HTLC. */
  ghost predicate Complete(spec: Spec, s: seq<Slot>) {
    && Matched(spec, s)
    && forall i: nat :: SumOf(s, IsFor(i)) == if spec.Pays(i) then 1 else 0
  }

  ghost predicate AllNamed(spec: Spec, s: seq<Slot>) {
    forall n :: 0 <= n < |s| ==> Named(spec, s[n])
  }

  function GoesTo(payee: Payee): Slot -> int {
    (s: Slot) => if s.payee == payee then s.amount else 0
  }

  function IsTo(payee: Payee): Slot -> int {
    (s: Slot) => if s.payee == payee then 1 else 0
  }

  /** How many outputs go to `payee`, and how much. */
  ghost predicate Pays(s: seq<Slot>, payee: Payee, wanted: bool, amount: nat) {
    SumOf(s, IsTo(payee)) == (if wanted then 1 else 0) && SumOf(s, GoesTo(payee)) == (if wanted then amount else 0)
  }

  /** The balances are paid if they are not dust, and the anchors if there is something they could be needed for. */
  ghost predicate PaysTheRest(spec: Spec, left: Pair<nat>, untrimmed: nat, s: seq<Slot>) {
    var toLocal, toRemote := left.local >= spec.dust * 1000, left.remote >= spec.dust * 1000;
    && Pays(s, ToLocal, toLocal, left.local / 1000)
    && Pays(s, ToRemote, toRemote, left.remote / 1000)
    && Pays(s, LocalAnchor, spec.anchors && (toLocal || untrimmed != 0), ANCHOR_SAT)
    && Pays(s, RemoteAnchor, spec.anchors && (toRemote || untrimmed != 0), ANCHOR_SAT)
  }

  lemma {:induction false} NotPaid(s: seq<Slot>, payee: Payee)
    requires forall n :: 0 <= n < |s| ==> s[n].payee != payee
    ensures Pays(s, payee, false, 0)
  {
    if s != [] { NotPaid(s[..|s| - 1], payee); }
  }

  lemma HtlcsPayNobodyElse(spec: Spec, s: seq<Slot>, offered: bool, payee: Payee)
    requires HtlcSlots(spec, s, |spec.htlcs|, offered) && !payee.HtlcOut?
    ensures Pays(s, payee, false, 0)
  {
    NotPaid(s, payee);
  }

  lemma PaysConcat(s: seq<Slot>, t: seq<Slot>, payee: Payee, wanted: bool, amount: nat)
    requires Pays(s, payee, false, 0) && Pays(t, payee, wanted, amount)
    ensures Pays(s + t, payee, wanted, amount)
    ensures Pays(t + s, payee, wanted, amount)
  {
    hide SumOf;
    SumOfConcat(s, t, IsTo(payee));
    SumOfConcat(s, t, GoesTo(payee));
    SumOfConcat(t, s, IsTo(payee));
    SumOfConcat(t, s, GoesTo(payee));
  }

  lemma FourSums(a: seq<Slot>, b: seq<Slot>, c: seq<Slot>, d: seq<Slot>, f: Slot -> int)
    ensures SumOf(a + b + c + d, f) == SumOf(a, f) + SumOf(b, f) + SumOf(c, f) + SumOf(d, f)
  {
    hide SumOf;
    SumOfConcat(a, b, f);
    SumOfConcat(a + b, c, f);
    SumOfConcat(a + b + c, d, f);
  }

  lemma OneIs(s: seq<Slot>, payee: Payee)
    requires |s| <= 1
    ensures SumOf(s, IsTo(payee)) == OneTo(s, payee) && SumOf(s, GoesTo(payee)) == AmountTo(s, payee)
  {
    SumOfOne(s, IsTo(payee));
    SumOfOne(s, GoesTo(payee));
  }

  /** Of four outputs or none, those to `payee`. */
  lemma OneOfFour(a: seq<Slot>, b: seq<Slot>, c: seq<Slot>, d: seq<Slot>, payee: Payee)
    requires |a| <= 1 && |b| <= 1 && |c| <= 1 && |d| <= 1
    ensures SumOf(a + b + c + d, IsTo(payee)) == OneTo(a, payee) + OneTo(b, payee) + OneTo(c, payee) + OneTo(d, payee)
    ensures SumOf(a + b + c + d, GoesTo(payee)) ==
            AmountTo(a, payee) + AmountTo(b, payee) + AmountTo(c, payee) + AmountTo(d, payee)
  {
    hide SumOf, OneTo, AmountTo, IsTo, GoesTo;
    OneIs(a, payee);
    OneIs(b, payee);
    OneIs(c, payee);
    OneIs(d, payee);
    FourSums(a, b, c, d, IsTo(payee));
    FourSums(a, b, c, d, GoesTo(payee));
  }

  lemma OtherOutsPay(spec: Spec, pays: Pair<nat>, untrimmed: nat)
    ensures PaysTheRest(spec, pays, untrimmed, OtherOuts(spec, pays, untrimmed))
  {
    hide SumOf, IsTo, GoesTo;
    var a, b := LocalOut(spec, pays), RemoteOut(spec, pays);
    var c, d := LocalAnchorOut(spec, a != [] || untrimmed != 0), RemoteAnchorOut(spec, b != [] || untrimmed != 0);
    OneOfFour(a, b, c, d, ToLocal);
    OneOfFour(a, b, c, d, ToRemote);
    OneOfFour(a, b, c, d, LocalAnchor);
    OneOfFour(a, b, c, d, RemoteAnchor);
  }

  function OneTo(s: seq<Slot>, payee: Payee): nat {
    if |s| == 1 && s[0].payee == payee then 1 else 0
  }

  function AmountTo(s: seq<Slot>, payee: Payee): nat {
    if |s| == 1 && s[0].payee == payee then s[0].amount else 0
  }

  lemma JoinedPays(spec: Spec, offered: seq<Slot>, received: seq<Slot>, other: seq<Slot>, left: Pair<nat>,
      untrimmed: nat)
    requires HtlcSlots(spec, offered, |spec.htlcs|, true) && HtlcSlots(spec, received, |spec.htlcs|, false)
    requires PaysTheRest(spec, left, untrimmed, other)
    ensures PaysTheRest(spec, left, untrimmed, offered + received + other)
  {
    hide HtlcSlots, SumOf;
    forall payee: Payee, wanted: bool, amount: nat | !payee.HtlcOut? && Pays(other, payee, wanted, amount)
      ensures Pays(offered + received + other, payee, wanted, amount)
    {
      HtlcsPayNobodyElse(spec, offered, true, payee);
      HtlcsPayNobodyElse(spec, received, false, payee);
      hide Pays;
      PaysConcat(offered, received, payee, false, 0);
      PaysConcat(offered + received, other, payee, wanted, amount);
    }
    hide Pays;
  }

  lemma ReorderedPays(spec: Spec, left: Pair<nat>, untrimmed: nat, s: seq<Slot>, t: seq<Slot>)
    requires PaysTheRest(spec, left, untrimmed, s) && multiset(s) == multiset(t)
    ensures PaysTheRest(spec, left, untrimmed, t)
  {
    hide SumOf;
    forall payee: Payee
      ensures SumOf(t, IsTo(payee)) == SumOf(s, IsTo(payee)) && SumOf(t, GoesTo(payee)) == SumOf(s, GoesTo(payee))
    {
      SumOfOrder(s, t, IsTo(payee));
      SumOfOrder(s, t, GoesTo(payee));
    }
  }

  lemma ClearedPays(spec: Spec, left: Pair<nat>, untrimmed: nat, s: seq<Slot>, t: seq<Slot>)
    requires PaysTheRest(spec, left, untrimmed, s) && |s| == |t| && forall n :: 0 <= n < |s| ==> t[n] == Cleared(s[n])
    ensures PaysTheRest(spec, left, untrimmed, t)
  {
    hide SumOf;
    forall payee: Payee
      ensures SumOf(t, IsTo(payee)) == SumOf(s, IsTo(payee)) && SumOf(t, GoesTo(payee)) == SumOf(s, GoesTo(payee))
    {
      ClearedSums(s, t, IsTo(payee));
      ClearedSums(s, t, GoesTo(payee));
    }
  }

  lemma JoinedAddsUp(spec: Spec, offered: seq<Slot>, received: seq<Slot>, left: Pair<nat>, untrimmed: nat)
    requires HtlcSlots(spec, offered, |spec.htlcs|, true) && HtlcSlots(spec, received, |spec.htlcs|, false)
    ensures SumOf(offered + received + OtherOuts(spec, left, untrimmed), Amount()) == Outputs(spec, left, untrimmed)
  {
    hide OtherOuts, SumOf, Matched, BalanceSats, AnchorSats;
    var other := OtherOuts(spec, left, untrimmed);
    SumOfConcat(offered, received, Amount());
    SumOfConcat(offered + received, other, Amount());
    PaidAndDropped(spec, |spec.htlcs|);
    OtherOutsAddUp(spec, left, untrimmed);
  }

  lemma JoinedIsComplete(spec: Spec, offered: seq<Slot>, received: seq<Slot>, other: seq<Slot>)
    requires HtlcSlots(spec, offered, |spec.htlcs|, true) && HtlcSlots(spec, received, |spec.htlcs|, false)
    requires forall n :: 0 <= n < |other| ==> !other[n].mark.OfHtlc?
    ensures Complete(spec, offered + received + other)
  {
    var s := offered + received + other;
    forall i: nat ensures SumOf(s, IsFor(i)) == if spec.Pays(i) then 1 else 0 {
      SumOfConcat(offered, received, IsFor(i));
      SumOfConcat(offered + received, other, IsFor(i));
      NoHtlcs(other, i);
    }
    hide HtlcSlot;
    assert Matched(spec, s);
  }

  lemma ReorderedIsComplete(spec: Spec, s: seq<Slot>, t: seq<Slot>)
    requires Complete(spec, s) && multiset(s) == multiset(t)
    ensures Complete(spec, t) && SumOf(t, Amount()) == SumOf(s, Amount())
  {
    hide HtlcSlot, SumOf;
    SumOfOrder(s, t, Amount());
    forall i: nat ensures SumOf(t, IsFor(i)) == if spec.Pays(i) then 1 else 0 {
      SumOfOrder(s, t, IsFor(i));
    }
    forall n | 0 <= n < |t| && t[n].mark.OfHtlc? ensures spec.Pays(t[n].mark.i) && t[n] == HtlcSlot(spec, t[n].mark.i) {
      assert t[n] in multiset(s);
      var m :| 0 <= m < |s| && s[m] == t[n];
    }
  }

  lemma ReorderedIsNamed(spec: Spec, s: seq<Slot>, t: seq<Slot>)
    requires AllNamed(spec, s) && multiset(s) == multiset(t)
    ensures AllNamed(spec, t)
  {
    forall n | 0 <= n < |t| ensures Named(spec, t[n]) {
      assert t[n] in multiset(s);
      var m :| 0 <= m < |s| && s[m] == t[n];
    }
  }

  /** Where the outputs that were marked with dummies ended up. */
  datatype Found = Found(toLocal: Option<nat>, toRemote: Option<nat>, anchor: Option<nat>)

  predicate Locates(at: Option<nat>, s: seq<Slot>, n: nat, wanted: Mark)
    requires n <= |s|
  {
    if at.Some? then at.value < n && s[at.value].mark == wanted
    else forall m :: 0 <= m < n ==> s[m].mark != wanted
  }

  /** The slots with the dummies of the first `n` cleared away. */
  function Cleared(x: Slot): Slot {
    if x.mark.OfHtlc? then x else x.(mark := Nothing)
  }

  /** The last loop of `commit_tx`: recognize the dummies and clear them. */
  method ClearDummies(slots: array<Slot>) returns (found: Found)
    modifies slots
    ensures forall n :: 0 <= n < slots.Length ==> slots[n] == Cleared(old(slots[n]))
    ensures Locates(found.toLocal, old(slots[..]), slots.Length, DummyToLocal)
    ensures Locates(found.toRemote, old(slots[..]), slots.Length, DummyToRemote)
    ensures Locates(found.anchor, old(slots[..]), slots.Length, DummyOtherAnchor)
  {
    found := Found(None, None, None);
    ghost var before := slots[..];
    for i := 0 to slots.Length
      invariant forall n :: 0 <= n < i ==> slots[n] == Cleared(before[n])
      invariant forall n :: i <= n < slots.Length ==> slots[n] == before[n]
      invariant Locates(found.toLocal, before, i, DummyToLocal)
      invariant Locates(found.toRemote, before, i, DummyToRemote)
      invariant Locates(found.anchor, before, i, DummyOtherAnchor)
    {
      if slots[i].mark == DummyToLocal {
        slots[i] := slots[i].(mark := Nothing);
        found := found.(toLocal := Some(i));
      } else if slots[i].mark == DummyToRemote {
        slots[i] := slots[i].(mark := Nothing);
        found := found.(toRemote := Some(i));
      } else if slots[i].mark == DummyOtherAnchor {
        slots[i] := slots[i].(mark := Nothing);
        found := found.(anchor := Some(i));
      }
    }
  }

  lemma {:induction false} ClearedSums(s: seq<Slot>, t: seq<Slot>, f: Slot -> int)
    requires |s| == |t| && forall n :: 0 <= n < |s| ==> t[n] == Cleared(s[n]) && f(t[n]) == f(s[n])
    ensures SumOf(t, f) == SumOf(s, f)
  {
    if s != [] { ClearedSums(s[..|s| - 1], t[..|t| - 1], f); }
  }

  lemma ClearedIsComplete(spec: Spec, s: seq<Slot>, t: seq<Slot>)
    requires Complete(spec, s) && |s| == |t| && forall n :: 0 <= n < |s| ==> t[n] == Cleared(s[n])
    ensures Complete(spec, t) && SumOf(t, Amount()) == SumOf(s, Amount())
  {
    hide HtlcSlot, SumOf;
    ClearedSums(s, t, Amount());
    forall i: nat ensures SumOf(t, IsFor(i)) == if spec.Pays(i) then 1 else 0 {
      ClearedSums(s, t, IsFor(i));
    }
  }

  /** `Some(n)` names an output with that payee, `None` says there is none. */
  predicate Points(at: Option<nat>, s: seq<Slot>, payee: Payee) {
    if at.Some? then at.value < |s| && s[at.value].payee == payee
    else forall n :: 0 <= n < |s| ==> s[n].payee != payee
  }

  /**
    `commit_tx`.  `pays` is what the transaction's owner (`local`) and the other side (`remote`) are owed;
    with the HTLCs that is no more than the funding.  The slots with an HTLC are exactly one for each
    HTLC that is not trimmed, with its amount and its kind of script; the outputs are in order.  They are
    within the funding exactly if the anchors are covered; if the opener can pay the base fee, and the
    anchors, they leave at least the base fee of the funding.
   */
  method BuildCommitTx(spec: Spec, pays: Pair<nat>, funding: nat) returns (slots: array<Slot>, found: Found)
    requires 0 <= Spare(spec, pays, funding)
    ensures Complete(spec, slots[..])
    ensures PaysTheRest(spec, LeftAfterFee(spec, pays), NumUntrimmed(spec, |spec.htlcs|), slots[..])
    ensures SumOf(slots[..], Amount()) <= funding <==>
            1000 * AnchorSats(spec, LeftAfterFee(spec, pays), NumUntrimmed(spec, |spec.htlcs|))
            <= pays.At(Payer(spec)) + Dropped(spec, pays) + Spare(spec, pays, funding)
    ensures var untrimmed := NumUntrimmed(spec, |spec.htlcs|);
            Charged(spec, untrimmed) * 1000 <= pays.At(Payer(spec)) ==>
              SumOf(slots[..], Amount()) + spec.baseFee(untrimmed) <= funding
    ensures SumOf(slots[..], Amount()) == Outputs(spec, LeftAfterFee(spec, pays), NumUntrimmed(spec, |spec.htlcs|))
    ensures SortedTo(slots[..], slots.Length)
    ensures forall n :: 0 <= n < slots.Length && !slots[n].mark.OfHtlc? ==> slots[n].mark == Nothing
    ensures Points(found.anchor, slots[..], RemoteAnchor)
    ensures spec.direct ==> Points(found.toLocal, slots[..], ToLocal) && Points(found.toRemote, slots[..], ToRemote)
  {
    hide Complete, HtlcSlots, AllNamed, AfterFee, SumOf, Matched, Named, OtherOuts, PaysTheRest, NumUntrimmed;
    hide Outputs, Dropped, Spare, AnchorSats;
    var untrimmed := CountUntrimmed(spec);
    var left, _ := TrySubtractFee(pays, Payer(spec), Charged(spec, untrimmed));
    var offered := AddHtlcOutputs(spec, true);
    var received := AddHtlcOutputs(spec, false);
    var other := OtherOuts(spec, left, untrimmed);
    OtherOutsAreNamed(spec, left, untrimmed);
    OtherOutsPay(spec, left, untrimmed);
    JoinedPays(spec, offered, received, other, left, untrimmed);
    JoinedAddsUp(spec, offered, received, left, untrimmed);
    JoinedIsComplete(spec, offered, received, other);
    WithinFundingIff(spec, pays, funding);
    var s := offered + received + other;
    HtlcsAreNamed(spec, offered, true);
    HtlcsAreNamed(spec, received, false);
    JoinedIsNamed(spec, offered, received, other);
    slots := new Slot[|s|](n requires 0 <= n < |s| => s[n]);
    assert slots[..] == s;
    PermuteOutputs(slots);
    ghost var sorted := slots[..];
    ReorderedIsComplete(spec, s, sorted);
    ReorderedIsNamed(spec, s, sorted);
    ReorderedPays(spec, left, untrimmed, s, sorted);
    found := ClearDummies(slots);
    ClearedIsComplete(spec, sorted, slots[..]);
    ClearedPays(spec, left, untrimmed, sorted, slots[..]);
    ClearedIsFound(spec, sorted, slots[..], found);
  }

  lemma HtlcsAreNamed(spec: Spec, s: seq<Slot>, offered: bool)
    requires HtlcSlots(spec, s, |spec.htlcs|, offered)
    ensures AllNamed(spec, s)
  {
  }

  lemma JoinedIsNamed(spec: Spec, offered: seq<Slot>, received: seq<Slot>, other: seq<Slot>)
    requires AllNamed(spec, offered) && AllNamed(spec, received) && AllNamed(spec, other)
    ensures AllNamed(spec, offered + received + other)
  {
  }

  lemma ClearedIsFound(spec: Spec, s: seq<Slot>, t: seq<Slot>, found: Found)
    requires AllNamed(spec, s) && |s| == |t| && forall n :: 0 <= n < |s| ==> t[n] == Cleared(s[n])
    requires SortedTo(s, |s|)
    requires Locates(found.toLocal, s, |s|, DummyToLocal) && Locates(found.toRemote, s, |s|, DummyToRemote)
    requires Locates(found.anchor, s, |s|, DummyOtherAnchor)
    ensures SortedTo(t, |t|) && forall n :: 0 <= n < |t| && !t[n].mark.OfHtlc? ==> t[n].mark == Nothing
    ensures Points(found.anchor, t, RemoteAnchor)
    ensures spec.direct ==> Points(found.toLocal, t, ToLocal) && Points(found.toRemote, t, ToRemote)
  {
    assert forall n :: 0 <= n < |s| ==> Named(spec, s[n]);
  }

  // ---- Second-stage transactions

  /** A transaction that spends output `n` of the commitment, on behalf of HTLC `i`. */
  datatype Stage2 = HtlcTimeout(n: nat, i: nat) | HtlcSuccess(n: nat, i: nat)

  /** `add_htlcs`: one transaction per HTLC output, in the order of the outputs. */
  method AddSecondStage(spec: Spec, slots: array<Slot>) returns (txs: seq<Stage2>)
    requires Matched(spec, slots[..])
    ensures forall k :: 0 <= k < |txs| ==>
              && txs[k].n < slots.Length && slots[txs[k].n].mark == OfHtlc(txs[k].i)
              && (txs[k].HtlcTimeout? <==> slots[txs[k].n].payee == HtlcOut(txs[k].i, true))
    ensures forall k, l :: 0 <= k < l < |txs| ==> txs[k].n < txs[l].n
    ensures forall n :: 0 <= n < slots.Length && slots[n].mark.OfHtlc? ==> exists k :: 0 <= k < |txs| && txs[k].n == n
  {
    txs := [];
    for n := 0 to slots.Length
      invariant forall k :: 0 <= k < |txs| ==>
                  && txs[k].n < n && slots[txs[k].n].mark == OfHtlc(txs[k].i)
                  && (txs[k].HtlcTimeout? <==> slots[txs[k].n].payee == HtlcOut(txs[k].i, true))
      invariant forall k, l :: 0 <= k < l < |txs| ==> txs[k].n < txs[l].n
      invariant forall m :: 0 <= m < n && slots[m].mark.OfHtlc? ==> exists k :: 0 <= k < |txs| && txs[k].n == m
    {
      if !slots[n].mark.OfHtlc? { continue; }
      var i := slots[n].mark.i;
      assert slots[..][n].mark.OfHtlc?;
      ghost var before := txs;
      if Owner(spec.htlcs[i].state) == spec.side {
        txs := txs + [HtlcTimeout(n, i)];
      } else {
        txs := txs + [HtlcSuccess(n, i)];
      }
      assert txs[|before|].n == n;
      assert forall k :: 0 <= k < |before| ==> txs[k] == before[k];
    }
  }

  /**
    An opener that owns nothing pays for no anchor, and the other side's is added all the same: the outputs are one
    anchor more than the funding, whoever owns the transaction.
   */
  lemma UnpaidAnchorsOverspend(spec: Spec, funding: nat)
    requires spec.htlcs == [] && spec.anchors && 0 < spec.dust <= funding
    ensures var pays := With(Pair(funding * 1000, funding * 1000), Payer(spec), 0);
            && Spare(spec, pays, funding) == 0
            && Outputs(spec, LeftAfterFee(spec, pays), 0) == funding + ANCHOR_SAT
  {
    WithinFundingIff(spec, With(Pair(funding * 1000, funding * 1000), Payer(spec), 0), funding);
  }

  // ---- A view's transaction is paid for by the funding

  /** The HTLCs committed in a view, in some order. */
  ghost predicate ListsCommitted(keys: seq<Key>, list: seq<Htlc>, htlcs: map<Key, Htlc>, v: Side, lane: nat) {
    && |keys| == |list|
    && (forall i, j :: 0 <= i < j < |keys| ==> keys[i] != keys[j])
    && (forall i :: 0 <= i < |keys| ==> keys[i] in CommittedAmounts(htlcs, v, lane) && list[i] == htlcs[keys[i]])
    && (forall k :: k in CommittedAmounts(htlcs, v, lane) ==> k in keys)
  }

  lemma {:induction false} ListAddsUp(keys: seq<Key>, list: seq<Htlc>, n: nat, table: map<Key, int>)
    requires n <= |keys| == |list| && forall i, j :: 0 <= i < j < |keys| ==> keys[i] != keys[j]
    requires forall i :: 0 <= i < n ==> keys[i] in table && table[keys[i]] == list[i].amount
    requires forall k :: k in table ==> exists i :: 0 <= i < n && keys[i] == k
    ensures AmountTotal(list, n) == Sum(table)
    decreases n
  {
    if n == 0 {
      assert table == map[];
    } else {
      hide Sum;
      var last := keys[n - 1];
      var rest := table - {last};
      SumTakeOut(table, last);
      ListAddsUp(keys, list, n - 1, rest);
    }
  }

  /** At every point of every run the balances and the committed HTLCs of either view are exactly the funding. */
  lemma RunFeedsCommitTx(cfg: Config, ns: seq<Node>, acts: seq<Action>, i: nat, v: Side, keys: seq<Key>,
      list: seq<Htlc>)
    requires IsRun(cfg, ns, acts) && i < |ns| && ListsCommitted(keys, list, ns[i].chan.htlcs, v, 0)
    ensures ns[i].chan.Sized() && |ns[0].base| > 0
    ensures ns[i].chan.Owed(v, 0, Local) + ns[i].chan.Owed(v, 0, Remote) + AmountTotal(list, |list|) ==
            BaseTotal(ns[0].base, 0)
  {
    assert Initial(ns[0]) && |ns[0].base| > 0;
    hide Initial, IsStep;
    RunKeepsInv(cfg, ns, acts, i);
    Conservation(cfg, ns, acts, i, v, 0);
    ListAddsUp(keys, list, |keys|, CommittedAmounts(ns[i].chan.htlcs, v, 0));
  }
}
