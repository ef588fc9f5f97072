/** Agreeing on the fee of a mutual close: the legacy back-and-forth, and the quick close by fee ranges. */
module Closing {
  import opened Sides

  const U64 := 0x1_0000_0000_0000_0000

  type Sat = n: int | 0 <= n < U64

  /** `struct feerange`. */
  datatype FeeRange = FeeRange(higher: Side, min: Sat, max: Sat)

  /** `init_feerange`. */
  function InitRange(maxFee: Sat, offer: Pair<Sat>): FeeRange {
    FeeRange(if offer.local > offer.remote then Local else Remote, 0, maxFee)
  }

  /** `adjust_feerange`, or nothing where the arithmetic fails. */
  function AdjustRange(r: FeeRange, offer: Sat, side: Side): Option<FeeRange> {
    if side == r.higher then (if offer == 0 then None else Some(r.(max := offer - 1)))
    else (if offer + 1 == U64 then None else Some(r.(min := offer + 1)))
  }

  datatype StepUnit = Satoshi | Percentage

  /** What one peer brings to the negotiation. */
  datatype Terms = Terms(minFee: Sat, maxFee: Sat, step: Sat, unit: StepUnit)

  /** The step in satoshi; the multiplications are in 64 bits and wrap. */
  function StepSat(t: Terms, rangeLen: Sat): Sat {
    var msat := if t.unit.Satoshi? then (t.step - 1) % U64 * 1000 % U64
                else rangeLen * t.step % U64 * 10 % U64;
    msat / 1000
  }

  /** `adjust_offer`, or nothing where it gives up on the peer. */
  function AdjustOffer(r: FeeRange, theirs: Sat, t: Terms): Option<Sat> {
    if r.min + 1 == U64 then None
    else if r.min + 1 >= r.max then Some(theirs)
    else
      var floor := if r.min > t.minFee then r.min else t.minFee;
      if r.max < floor then None
      else
        var step := StepSat(t, r.max - floor);
        if r.higher.Local? then
          if r.max < step || r.max - step <= floor then Some(floor) else Some(r.max - step)
        else
          if floor + step >= U64 || floor + step >= r.max then Some(r.max) else Some(floor + step)
  }

  function Min(a: int, b: int): int {
    if a < b then a else b
  }

  function Max(a: int, b: int): int {
    if a < b then b else a
  }

  /**
    A new offer is the other's, or in the current range and no less than we accept; failing is our minimum being
    above the range.  It is one step in from our end of the range, and no further than the other end.
   */
  lemma OfferInRange(r: FeeRange, theirs: Sat, t: Terms)
    ensures var o := AdjustOffer(r, theirs, t);
            && (o.None? <==> r.min + 1 == U64 || (r.min + 1 < r.max && r.max < t.minFee))
            && (o.Some? ==> o.value == theirs || (r.min <= o.value <= r.max && t.minFee <= o.value))
    ensures var o := AdjustOffer(r, theirs, t);
            var floor := Max(r.min, t.minFee);
            r.min + 1 < r.max && floor <= r.max ==>
              var step := StepSat(t, r.max - floor);
              o == Some(if r.higher.Local? then Max(floor, r.max - step) else Min(r.max, floor + step))
  {
    hide StepSat;
  }

  lemma PercentOf(n: nat)
    requires n * 10 < U64
    ensures n % U64 * 10 % U64 / 1000 == n / 100
  {
  }

  lemma SatoshiOf(n: nat)
    requires n * 1000 < U64
    ensures n % U64 * 1000 % U64 / 1000 == n
  {
  }

  /** The step as it was meant, where nothing wraps: so many satoshi less one, or a percentage of the range. */
  lemma StepIs(t: Terms, rangeLen: Sat)
    ensures t.unit.Satoshi? && 1 <= t.step && (t.step - 1) * 1000 < U64 ==> StepSat(t, rangeLen) == t.step - 1
    ensures t.unit.Percentage? && rangeLen * t.step * 10 < U64 ==> StepSat(t, rangeLen) == rangeLen * t.step / 100
  {
    if t.unit.Satoshi? {
      if 1 <= t.step && (t.step - 1) * 1000 < U64 { SatoshiOf(t.step - 1); }
    } else if rangeLen * t.step * 10 < U64 {
      assert 0 <= rangeLen * t.step;
      PercentOf(rangeLen * t.step);
    }
  }

  /** How the legacy negotiation ends. */
  datatype Outcome = AgreedOn(fee: Sat) | GaveUp(who: Side)

  function Abs(n: int): nat {
    if n < 0 then -n else n
  }

  /** The two ends keep the same range and call each other's side the higher one. */
  predicate SameRange(opener: FeeRange, other: FeeRange) {
    opener.higher == other.higher.Other() && opener.min == other.min && opener.max == other.max
  }

  /** The range is what lies strictly between the two offers. */
  predicate Between(r: FeeRange, ours: Sat, theirs: Sat) {
    if r.higher.Local? then r.max == ours - 1 && r.min == theirs + 1 else r.max == theirs - 1 && r.min == ours + 1
  }

  /**
    Two peers that both run the legacy loop, as one alternation: `Local` is the opener's end, whose first
    offer is `x`, `Remote` the other's, whose first offer is `y`.  Each round the mover takes the last
    offer into its range and makes a new one; each end sees the other's offers and nothing else.
   */
  method Negotiate(x: Sat, y: Sat, opener: Terms, other: Terms) returns (result: Outcome, rounds: nat)
    ensures result.AgreedOn? ==> (x <= result.fee <= y || y <= result.fee <= x)
    ensures rounds <= Abs(x - y)
    ensures x != y && result.GaveUp? ==>
              || (if result.who.Local? then opener else other).minFee > (if x < y then x else y)
              || (if x < y then y else x) + 1 == U64
    ensures x == y ==>
              result == if x == 0 then GaveUp(Remote) else if x + 1 == U64 then GaveUp(Local) else AgreedOn(x)
  {
    rounds := 0;
    // Each end's own copy of the two offers and of the range.
    var first := AdjustRange(InitRange(opener.maxFee, Pair(x, y)), x, Local);
    var second := AdjustRange(InitRange(other.maxFee, Pair(y, x)), x, Remote);
    if first.None? { return GaveUp(Local), rounds; }
    if second.None? { return GaveUp(Remote), rounds; }
    var here, there := first.value, second.value;
    var offer: Pair<Sat> := Pair(x, y);
    var turn := Local;
    ghost var low, high := if x < y then x else y, if x < y then y else x;
    ghost var openerIsHigher := x > y;
    while offer.local != offer.remote
      invariant low <= offer.local <= high && low <= offer.remote <= high
      invariant offer.local != offer.remote ==>
                  && (openerIsHigher <==> offer.local > offer.remote)
                  && (here.higher.Local? <==> openerIsHigher) && there.higher == here.higher.Other()
      // The mover's offer of the round before is in the ranges already, the other's is about to be.
      invariant offer.local != offer.remote && turn.Local? ==>
                  if openerIsHigher then here.max == there.max == offer.local - 1
                    else here.min == there.min == offer.local + 1
      invariant offer.local != offer.remote && turn.Remote? ==>
                  if openerIsHigher then here.min == there.min == offer.remote + 1
                    else here.max == there.max == offer.remote - 1
      invariant rounds + (if offer.local == offer.remote then 0 else Abs(offer.local - offer.remote)) <= Abs(x - y)
      invariant x == y ==> rounds == 0 && offer == Pair(x, y)
      decreases Abs(offer.local - offer.remote)
    {
      ghost var width := Abs(offer.local - offer.remote);
      var last := if turn.Local? then offer.remote else offer.local;
      first := AdjustRange(here, last, turn.Other());
      second := AdjustRange(there, last, turn);
      assert first.Some? && second.Some?;
      here, there := first.value, second.value;
      assert SameRange(here, there) && Between(here, offer.local, offer.remote);
      rounds := rounds + 1;
      if turn.Local? {
        OfferInRange(here, offer.remote, opener);
        var next := AdjustOffer(here, offer.remote, opener);
        if next.None? { return GaveUp(Local), rounds; }
        offer := Pair(next.value, offer.remote);
      } else {
        OfferInRange(there, offer.local, other);
        var next := AdjustOffer(there, offer.local, other);
        if next.None? { return GaveUp(Remote), rounds; }
        offer := Pair(offer.local, next.value);
      }
      assert offer.local == offer.remote || Abs(offer.local - offer.remote) < width;
      turn := turn.Other();
    }
    return AgreedOn(offer.local), rounds;
  }

  // ---- Quick close

  /** A `fee_range`, and the fee we would like. */
  datatype Bounds = Bounds(min: Sat, ideal: Sat, max: Sat)

  /** `calc_fee_bounds`, from the fees the three feerates give and the funding. */
  function FeeBounds(minFee: Sat, idealFee: Sat, maxFee: Sat, funding: Sat, opener: Side): (b: Bounds)
    ensures b.min <= b.ideal <= b.max
    ensures opener.Remote? ==> b.max == funding
    ensures minFee <= b.max && idealFee <= b.max && minFee <= idealFee ==> b.min == minFee && b.ideal == idealFee
  {
    var max := if opener.Remote? then funding else maxFee;
    var min := if minFee > max then max else minFee;
    var ideal := if idealFee < min then min else idealFee;
    Bounds(min, if ideal > max then max else ideal, max)
  }

  /** `get_overlap`. */
  function Overlap(a: Bounds, b: Bounds): (Sat, Sat) {
    (if a.min > b.min then a.min else b.min, if a.max < b.max then a.max else b.max)
  }

  predicate Overlaps(a: Bounds, b: Bounds) {
    Overlap(a, b).0 <= Overlap(a, b).1
  }

  predicate InRange(fee: Sat, r: (Sat, Sat)) {
    r.0 <= fee <= r.1
  }

  /** What a peer does next: fail, or hold a fee, having sent a message or not, and wait for another or not. */
  datatype Quick = NoAgreement | Holds(fee: Sat, sends: bool, waits: bool)

  /** `do_quickclose` at the opener: it has sent `ours` and received `theirs`. */
  method QuickcloseAsOpener(ours: Sat, range: Bounds, theirs: Sat, theirRange: Bounds) returns (q: Quick)
    ensures q == if Overlaps(range, theirRange) && InRange(theirs, Overlap(range, theirRange))
                 then Holds(theirs, ours != theirs, false) else NoAgreement
  {
    var overlap := Overlap(range, theirRange);
    if overlap.0 > overlap.1 { return NoAgreement; }
    if !InRange(theirs, overlap) { return NoAgreement; }
    var offer: Pair<Sat> := Pair(ours, theirs);
    var sends := false;
    if offer.local != offer.remote {
      offer := Pair(offer.remote, offer.remote);
      sends := true;
    }
    return Holds(offer.local, sends, false);
  }

  /** `do_quickclose` at the other end, up to the offer it sends: it has received `theirs` and sent nothing. */
  method QuickcloseAsOther(ours: Sat, range: Bounds, theirs: Sat, theirRange: Bounds) returns (q: Quick)
    ensures q.NoAgreement? <==> !Overlaps(range, theirRange)
    ensures q.Holds? ==> InRange(q.fee, Overlap(range, theirRange)) && q.sends && q.waits == (q.fee != theirs)
    ensures q.Holds? && InRange(ours, Overlap(range, theirRange)) ==> q.fee == ours
  {
    var overlap := Overlap(range, theirRange);
    if overlap.0 > overlap.1 { return NoAgreement; }
    var offer := ours;
    if !InRange(offer, overlap) {
      if offer > overlap.1 {
        offer := overlap.1;
      } else if offer < overlap.0 {
        offer := overlap.0;
      }
    }
    return Holds(offer, true, offer != theirs);
  }

  /**
    Two peers with fee ranges, the opener's offer first.  `answer` is what the other end does about it, `close` what
    the opener does about that.  If the ranges do not overlap, neither ends with a fee.  Otherwise both hold the
    same fee, in both ranges; the non-opener waits for a third offer exactly if the opener sends one, which is
    exactly if the first two differ; and the third is the fee the non-opener compares it with.
   */
  method Quickclose(opener: Bounds, other: Bounds)
    returns (fee: Option<Sat>, offers: seq<Sat>, answer: Quick, close: Quick)
    requires opener.min <= opener.ideal <= opener.max && other.min <= other.ideal <= other.max
    ensures fee.Some? <==> Overlaps(opener, other)
    ensures fee.Some? ==> opener.min <= fee.value <= opener.max && other.min <= fee.value <= other.max
    ensures fee.Some? ==> answer.Holds? && close.Holds? && answer.fee == close.fee == fee.value
    ensures fee.Some? ==> close.sends == answer.waits && !close.waits
    ensures fee.Some? ==> offers == [opener.ideal, fee.value] + if close.sends then [fee.value] else []
    ensures fee.Some? ==> (|offers| == 3 <==> offers[1] != offers[0])
    ensures fee.None? ==> offers == [opener.ideal] && answer.NoAgreement? && close.NoAgreement?
  {
    offers := [opener.ideal];
    answer := QuickcloseAsOther(other.ideal, other, opener.ideal, opener);
    if answer.NoAgreement? { return None, offers, answer, NoAgreement; }
    offers := offers + [answer.fee];
    close := QuickcloseAsOpener(opener.ideal, opener, answer.fee, other);
    if close.sends {
      offers := offers + [close.fee];
    }
    fee := Some(close.fee);
  }
}
