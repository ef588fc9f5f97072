/**
  Starting again, as a whole: `channel_force_htlcs` gives back the channel of the live run unless `add_htlc` counts
  too many HTLCs on the way.  Whether it does depends on the order in which they are put back.
 */
module Readmission {
  import opened Sides
  import opened HtlcStates
  import opened Sums
  import opened ChannelState
  import opened Admission
  import opened Runs
  import opened Solvency
  import opened Settlement
  import opened HtlcWalks
  import opened FullChannel
  import opened Persistence
  import opened Restoring

  // ---- What time does to an HTLC

  /** It keeps its owner, lane, amount and expiry, and its state only advances. */
  predicate Ages(g: Htlc, h: Htlc) {
    && h.lane == g.lane && h.amount == g.amount && h.expiry == g.expiry
    && Owner(h.state) == Owner(g.state) && g.state <= h.state
  }

  ghost predicate AllAge(before: map<Key, Htlc>, after: map<Key, Htlc>) {
    forall k :: k in after ==> k in before && Ages(before[k], after[k])
  }

  /** An HTLC that is not counted any more is never counted again. */
  lemma CountFades(g: Htlc, h: Htlc, v: Side)
    requires Ages(g, h) && CountsAsOther(h, v, None)
    ensures CountsAsOther(g, v, None)
  {
  }

  lemma StepAges(htlcs: map<Key, Htlc>, step: Step)
    ensures AllAge(htlcs, StepHtlcs(htlcs, step))
  {
  }

  lemma ActionAges(cfg: Config, n: Node, a: Action)
    requires n.chan.Sized() && Enabled(cfg, n, a) && !a.Offer?
    ensures AllAge(n.chan.htlcs, Next(n, a).chan.htlcs)
  {
    hide StepHtlcs, StepView, StepHeights;
    if a.SendCommit? {
      StepAges(n.chan.htlcs, SendingCommit);
    } else if a.RecvRevoke? {
      StepAges(n.chan.htlcs, RcvdRevoke);
    } else if a.RecvCommit? {
      var between := StepHtlcs(n.chan.htlcs, RcvdCommit);
      StepAges(n.chan.htlcs, RcvdCommit);
      StepAges(between, SendingRevoke);
    }
  }

  // ---- When each was admitted

  /** The number of the action that added each HTLC. */
  ghost function Times(ns: seq<Node>, acts: seq<Action>, i: nat): map<Key, nat>
    requires |ns| == |acts| + 1 && i < |ns|
  {
    if i == 0 then map[]
    else
      var before := Times(ns, acts, i - 1);
      map k | k in ns[i].chan.htlcs ::
        if acts[i - 1] == Offer(k, ns[i].chan.htlcs[k]) then i - 1 else if k in before then before[k] else 0
  }

  /** Those of the same side that came before `k` and are still counted in the recipient's view. */
  function Earlier(htlcs: map<Key, Htlc>, times: map<Key, nat>, k: Key): set<Key>
    requires k in htlcs && htlcs.Keys <= times.Keys
  {
    set j | j in htlcs && CountsAsOther(htlcs[j], k.owner.Other(), None) && times[j] < times[k]
  }

  /** The conditions of `add_htlc` that do not depend on the other HTLCs. */
  predicate Admissible(cfg: Config, k: Key, h: Htlc) {
    && h.expiry < LOCKTIME_THRESHOLD
    && h.amount != 0 && cfg.limits.At(k.owner.Other()).htlcMinimum <= h.amount
    && (k.owner.Local? ==> h.amount <= cfg.maxPayment || cfg.wumbo)
  }

  ghost predicate Recorded(cfg: Config, htlcs: map<Key, Htlc>, times: map<Key, nat>, now: nat) {
    && times.Keys == htlcs.Keys
    && (forall k :: k in times ==> times[k] < now)
    && (forall k :: k in htlcs ==> Admissible(cfg, k, htlcs[k]))
    && (forall k :: k in htlcs ==> |Earlier(htlcs, times, k)| + 1 <= cfg.limits.At(k.owner.Other()).maxAcceptedHtlcs)
  }

  lemma SubsetSize<T>(a: set<T>, b: set<T>)
    requires a <= b
    ensures |a| <= |b|
  {
    assert b == a + (b - a);
  }

  /** What an accepted HTLC met. */
  lemma AcceptedMeets(cfg: Config, c: Channel, k: Key, h: Htlc, enforce: bool, errImmediate: bool)
    requires c.Sized() && Owner(h.state) == k.owner && AddResult(cfg, c, k, h, enforce, errImmediate) == AddOk
    ensures k !in c.htlcs && h.lane < c.Lanes() && Admissible(cfg, k, h)
    ensures |OtherKeys(c.htlcs, k.owner.Other(), None)| + 1 <= cfg.limits.At(k.owner.Other()).maxAcceptedHtlcs
  {
    hide OwnLaneResult, Predicted, NumOther, OtherKeys;
    NumOtherIsOtherKeys(c.htlcs, k.owner.Other(), None);
  }

  lemma EarlierAfterOffer(htlcs: map<Key, Htlc>, times: map<Key, nat>, k: Key, h: Htlc, now: nat, j: Key)
    requires k !in htlcs && times.Keys == htlcs.Keys && (forall i :: i in times ==> times[i] < now)
             && (j in htlcs || j == k)
    ensures Earlier(htlcs[k := h], times[k := now], j) ==
            if j == k then OtherKeys(htlcs, k.owner.Other(), None) else Earlier(htlcs, times, j)
  {
    hide CountsAsOther;
  }

  lemma OfferRecords(cfg: Config, htlcs: map<Key, Htlc>, k: Key, h: Htlc, times: map<Key, nat>, now: nat)
    requires Recorded(cfg, htlcs, times, now) && k !in htlcs && Admissible(cfg, k, h)
    requires |OtherKeys(htlcs, k.owner.Other(), None)| + 1 <= cfg.limits.At(k.owner.Other()).maxAcceptedHtlcs
    ensures Recorded(cfg, htlcs[k := h], times[k := now], now + 1)
  {
    var after, times' := htlcs[k := h], times[k := now];
    hide Earlier, OtherKeys, Admissible;
    forall j | j in after ensures |Earlier(after, times', j)| + 1 <= cfg.limits.At(j.owner.Other()).maxAcceptedHtlcs {
      EarlierAfterOffer(htlcs, times, k, h, now, j);
    }
  }

  lemma AgeingRecords(cfg: Config, before: map<Key, Htlc>, after: map<Key, Htlc>, was: map<Key, nat>,
      times: map<Key, nat>, now: nat)
    requires Recorded(cfg, before, was, now) && AllAge(before, after)
    requires times.Keys == after.Keys && forall k :: k in times ==> times[k] == was[k]
    ensures Recorded(cfg, after, times, now + 1)
  {
    hide CountsAsOther;
    forall k | k in after ensures |Earlier(after, times, k)| + 1 <= cfg.limits.At(k.owner.Other()).maxAcceptedHtlcs {
      forall j | j in Earlier(after, times, k) ensures j in Earlier(before, was, k) {
        CountFades(before[j], after[j], k.owner.Other());
      }
      SubsetSize(Earlier(after, times, k), Earlier(before, was, k));
    }
  }

  /** What an action of a run does to the HTLCs. */
  lemma RunStep(cfg: Config, ns: seq<Node>, acts: seq<Action>, i: nat)
    requires IsRun(cfg, ns, acts) && 0 < i < |ns|
    ensures var before, after, a := ns[i - 1].chan, ns[i].chan, acts[i - 1];
            if a.Offer? then
              && before.Sized() && AddResult(cfg, before, a.k, a.h, true, a.k.owner.Local?) == AddOk
              && a.h.state == OfferState(a.k.owner) && after.htlcs == before.htlcs[a.k := a.h]
            else AllAge(before.htlcs, after.htlcs)
  {
    hide AddResult, AllAge;
    assert IsStep(cfg, ns[i - 1], acts[i - 1], ns[i]);
    if !acts[i - 1].Offer? { ActionAges(cfg, ns[i - 1], acts[i - 1]); }
  }

  lemma NothingAtFirst(cfg: Config, ns: seq<Node>, acts: seq<Action>)
    requires IsRun(cfg, ns, acts)
    ensures ns[0].chan.htlcs == map[] && |ns[0].base| == ns[0].chan.Lanes() > 0
  {
    hide IsStep;
  }

  lemma NoneRecorded(cfg: Config)
    ensures Recorded(cfg, map[], map[], 0)
  {
    hide Admissible, Earlier;
  }

  lemma OfferStepRecords(cfg: Config, ns: seq<Node>, acts: seq<Action>, i: nat)
    requires IsRun(cfg, ns, acts) && |ns| == |acts| + 1 && 0 < i < |ns| && acts[i - 1].Offer?
    requires Recorded(cfg, ns[i - 1].chan.htlcs, Times(ns, acts, i - 1), i - 1)
    ensures Recorded(cfg, ns[i].chan.htlcs, Times(ns, acts, i), i)
  {
    hide IsRun, AddResult, Recorded, Times, Admissible, OtherKeys;
    RunStep(cfg, ns, acts, i);
    TimesOfOffer(cfg, ns, acts, i);
    var before, k, h := ns[i - 1].chan, acts[i - 1].k, acts[i - 1].h;
    AcceptedMeets(cfg, before, k, h, true, k.owner.Local?);
    OfferRecords(cfg, before.htlcs, k, h, Times(ns, acts, i - 1), i - 1);
  }

  lemma OtherStepRecords(cfg: Config, ns: seq<Node>, acts: seq<Action>, i: nat)
    requires IsRun(cfg, ns, acts) && |ns| == |acts| + 1 && 0 < i < |ns| && !acts[i - 1].Offer?
    requires Recorded(cfg, ns[i - 1].chan.htlcs, Times(ns, acts, i - 1), i - 1)
    ensures Recorded(cfg, ns[i].chan.htlcs, Times(ns, acts, i), i)
  {
    hide IsRun, AddResult, Recorded, Times, AllAge;
    RunStep(cfg, ns, acts, i);
    TimesOfAgeing(cfg, ns, acts, i);
    AgeingRecords(cfg, ns[i - 1].chan.htlcs, ns[i].chan.htlcs, Times(ns, acts, i - 1), Times(ns, acts, i), i - 1);
  }

  /** At every point of every run, each HTLC had room when it came, and has not lost it to those before it. */
  lemma {:induction false} RunRecords(cfg: Config, ns: seq<Node>, acts: seq<Action>, i: nat)
    requires IsRun(cfg, ns, acts) && i < |ns|
    ensures |ns| == |acts| + 1 && Recorded(cfg, ns[i].chan.htlcs, Times(ns, acts, i), i)
    decreases i
  {
    hide IsRun, Recorded;
    RunLength(cfg, ns, acts);
    if i == 0 {
      NothingAtFirst(cfg, ns, acts);
      NoneRecorded(cfg);
    } else {
      hide Times;
      RunRecords(cfg, ns, acts, i - 1);
      if acts[i - 1].Offer? {
        OfferStepRecords(cfg, ns, acts, i);
      } else {
        OtherStepRecords(cfg, ns, acts, i);
      }
    }
  }

  lemma RunLength(cfg: Config, ns: seq<Node>, acts: seq<Action>)
    requires IsRun(cfg, ns, acts)
    ensures |ns| == |acts| + 1
  {
    hide IsStep, Initial;
  }

  lemma TimesOfOffer(cfg: Config, ns: seq<Node>, acts: seq<Action>, i: nat)
    requires |ns| == |acts| + 1 && 0 < i < |ns| && acts[i - 1].Offer?
    requires Recorded(cfg, ns[i - 1].chan.htlcs, Times(ns, acts, i - 1), i - 1)
    requires ns[i].chan.htlcs == ns[i - 1].chan.htlcs[acts[i - 1].k := acts[i - 1].h]
    ensures Times(ns, acts, i) == Times(ns, acts, i - 1)[acts[i - 1].k := i - 1]
  {
  }

  lemma TimesOfAgeing(cfg: Config, ns: seq<Node>, acts: seq<Action>, i: nat)
    requires |ns| == |acts| + 1 && 0 < i < |ns| && !acts[i - 1].Offer?
    requires Recorded(cfg, ns[i - 1].chan.htlcs, Times(ns, acts, i - 1), i - 1)
    requires AllAge(ns[i - 1].chan.htlcs, ns[i].chan.htlcs)
    ensures var was, times := Times(ns, acts, i - 1), Times(ns, acts, i);
            times.Keys == ns[i].chan.htlcs.Keys && forall k :: k in times ==> k in was && times[k] == was[k]
  {
  }

  // ---- No sum overflows

  /** `max_supply`, in millisatoshi. */
  const MAX_SUPPLY_MSAT := 2_100_000_000_000_000_000

  /** What a view has committed, and what either side is adding to it, is within the lane's total. */
  ghost predicate Bounded(c: Channel, v: Side, lane: nat, total: int) {
    && Sum(CommittedAmounts(c.htlcs, v, lane)) <= total
    && Sum(AddedAmounts(c.htlcs, v, lane, Local)) <= total
    && Sum(AddedAmounts(c.htlcs, v, lane, Remote)) <= total
  }

  lemma RunIsBounded(cfg: Config, ns: seq<Node>, acts: seq<Action>, i: nat, v: Side, lane: nat)
    requires IsRun(cfg, ns, acts) && i < |ns| && lane < |ns[0].base|
    ensures Bounded(ns[i].chan, v, lane, BaseTotal(ns[0].base, lane))
  {
    hide Initial, IsStep, Sum, StepTable, AddedAmounts, CommittedAmounts, SwapStepEffect;
    RunKeepsInv(cfg, ns, acts, i);
    RunKeepsBaseTotal(cfg, ns, acts, i, lane);
    var c := ns[i].chan;
    assert lane < c.Lanes();
    TotalIsBaseTotal(c, ns[i].base, v, lane);
    TotalIsBaseTotal(c, ns[i].base, v.Other(), lane);
    assert 0 <= c.Owed(v, lane, Local) && 0 <= c.Owed(v, lane, Remote);
    assert 0 <= c.Owed(v.Other(), lane, Local) && 0 <= c.Owed(v.Other(), lane, Remote);
    GainsAreCommitted(c.htlcs, v, lane, v.Other());
    assert Solvent(c, v, lane);
    HeldIsNotNegative(c, v, lane, v.Other());
    OwnAddsAreCommitted(c, ns[i].awaiting, v, lane);
  }

  lemma OneOfSum(m: map<Key, int>, k: Key)
    requires k in m && forall j :: j in m ==> 0 <= m[j]
    ensures m[k] <= Sum(m)
  {
    hide Sum;
    SumTakeOut(m, k);
    SumNonNegative(m - {k});
  }

  /** No HTLC is worth more than its lane. */
  lemma {:induction false} RunBoundsAmounts(cfg: Config, ns: seq<Node>, acts: seq<Action>, i: nat, k: Key)
    requires IsRun(cfg, ns, acts) && i < |ns| && k in ns[i].chan.htlcs
    ensures ns[i].chan.htlcs[k].lane < |ns[0].base|
    ensures ns[i].chan.htlcs[k].amount <= BaseTotal(ns[0].base, ns[i].chan.htlcs[k].lane)
    decreases i
  {
    assert |ns| == |acts| + 1 by { RunLength(cfg, ns, acts); }
    hide IsRun, AddResult;
    NothingAtFirst(cfg, ns, acts);
    RunStep(cfg, ns, acts, i);
    var a := acts[i - 1];
    if a.Offer? && a.k == k {
      OfferIsBounded(cfg, ns, acts, i);
    } else {
      RunBoundsAmounts(cfg, ns, acts, i - 1, k);
    }
  }

  lemma HtlcHasLane(cfg: Config, ns: seq<Node>, acts: seq<Action>, i: nat, k: Key)
    requires IsRun(cfg, ns, acts) && i < |ns| && k in ns[i].chan.htlcs
    ensures ns[i].chan.htlcs[k].lane < |ns[0].base|
  {
    hide Initial, IsStep, AllSolvent, Marked, Resting;
    RunKeepsInv(cfg, ns, acts, i);
    NothingAtFirst(cfg, ns, acts);
    RunKeepsBaseTotal(cfg, ns, acts, i, 0);
  }

  lemma OfferIsBounded(cfg: Config, ns: seq<Node>, acts: seq<Action>, i: nat)
    requires IsRun(cfg, ns, acts) && |ns| == |acts| + 1 && 0 < i < |ns| && acts[i - 1].Offer?
    ensures acts[i - 1].h.lane < |ns[0].base| && acts[i - 1].h.amount <= BaseTotal(ns[0].base, acts[i - 1].h.lane)
  {
    hide IsRun, Sum, AddResult;
    RunStep(cfg, ns, acts, i);
    var k, h := acts[i - 1].k, acts[i - 1].h;
    var v := k.owner.Other();
    HtlcHasLane(cfg, ns, acts, i, k);
    RunIsBounded(cfg, ns, acts, i, v, h.lane);
    var added := AddedAmounts(ns[i].chan.htlcs, v, h.lane, k.owner);
    assert k in added;
    OneOfSum(added, k);
  }

  function Amounts(htlcs: map<Key, Htlc>): map<Key, int> {
    map k | k in htlcs :: htlcs[k].amount
  }

  ghost predicate IsPart(part: map<Key, Htlc>, all: map<Key, Htlc>) {
    forall k :: k in part ==> k in all && part[k] == all[k]
  }

  /** The amounts of what a part of the HTLCs commits and adds are within those of all of them. */
  lemma GatheredIsBounded(c: Channel, part: map<Key, Htlc>, v: Side, lane: nat, total: int)
    requires IsPart(part, c.htlcs) && Bounded(c, v, lane, total)
    ensures var pool := Gather(part, v, Some(lane));
            Sum(Amounts(pool.committed)) <= total && Sum(Amounts(pool.adding)) <= 2 * total
  {
    hide Sum;
    var pool := Gather(part, v, Some(lane));
    PartIsLess(CommittedAmounts(c.htlcs, v, lane), Amounts(pool.committed));
    AddingIsBounded(c, part, v, lane, Local);
    AddingIsBounded(c, part, v, lane, Remote);
    SumUnion(Amounts(pool.adding), AmountTable(pool.adding, Local), AmountTable(pool.adding, Remote));
  }

  lemma AddingIsBounded(c: Channel, part: map<Key, Htlc>, v: Side, lane: nat, p: Side)
    requires IsPart(part, c.htlcs)
    ensures Sum(AmountTable(Gather(part, v, Some(lane)).adding, p)) <= Sum(AddedAmounts(c.htlcs, v, lane, p))
  {
    hide Sum;
    var adding, added := AmountTable(Gather(part, v, Some(lane)).adding, p), AddedAmounts(c.htlcs, v, lane, p);
    forall k | k in adding ensures k in added && added[k] == adding[k] {
      CommitStepMovesPending(c.htlcs[k].state, v);
    }
    PartIsLess(added, adding);
  }

  lemma AmountsPut(htlcs: map<Key, Htlc>, k: Key, h: Htlc)
    requires k !in htlcs
    ensures Sum(Amounts(htlcs[k := h])) == Sum(Amounts(htlcs)) + h.amount
  {
    hide Sum;
    SumPut(Amounts(htlcs), k, h.amount);
    assert Amounts(htlcs[k := h]) == Amounts(htlcs)[k := h.amount];
  }

  /** A pool with small totals passes every 64-bit check. */
  lemma SmallPoolFits(cfg: Config, pool: Pool, sender: Side)
    requires Sum(Amounts(pool.committed)) + Sum(Amounts(pool.adding)) < U64_LIMIT
    requires IsPart(pool.removing, pool.committed)
    ensures InFlightFits(pool, sender) && Dust(cfg, pool, sender).Some? && Dust(cfg, pool, sender.Other()).Some?
  {
    hide Sum;
    SmallTables(pool, AmountTable(pool.committed, sender), AmountTable(pool.adding, sender),
      AmountTable(pool.removing, sender));
    SmallDust(cfg, pool, sender);
    SmallDust(cfg, pool, sender.Other());
  }

  lemma SmallDust(cfg: Config, pool: Pool, side: Side)
    requires Sum(Amounts(pool.committed)) + Sum(Amounts(pool.adding)) < U64_LIMIT
    requires IsPart(pool.removing, pool.committed)
    ensures Dust(cfg, pool, side).Some?
  {
    hide Sum;
    SmallTables(pool, DustTable(cfg, pool.committed, side), DustTable(cfg, pool.adding, side),
      DustTable(cfg, pool.removing, side));
  }

  ghost predicate IsPartOf(part: map<Key, int>, all: map<Key, int>) {
    forall k :: k in part ==> k in all && part[k] == all[k]
  }

  lemma SmallTables(pool: Pool, committed: map<Key, int>, adding: map<Key, int>, removing: map<Key, int>)
    requires Sum(Amounts(pool.committed)) + Sum(Amounts(pool.adding)) < U64_LIMIT
    requires IsPartOf(committed, Amounts(pool.committed)) && IsPartOf(adding, Amounts(pool.adding))
    requires IsPartOf(removing, committed)
    ensures Sum(committed) + Sum(adding) < U64_LIMIT && 0 <= Sum(adding) && 0 <= Sum(removing) <= Sum(committed)
  {
    hide Sum;
    PartIsLess(Amounts(pool.committed), committed);
    PartIsLess(Amounts(pool.adding), adding);
    PartIsLess(committed, removing);
    SumNonNegative(adding);
    SumNonNegative(removing);
  }

  // ---- Putting them back

  /** Each saved HTLC is in the list once. */
  ghost predicate Once(list: seq<Saved>) {
    forall i: nat, j: nat :: i < j < |list| ==> list[i].Key() != list[j].Key()
  }

  lemma {:induction false} SavedSoFar(list: seq<Saved>, j: nat, htlcs: map<Key, Htlc>)
    requires j <= |list| && Lists(list, htlcs) && Once(list)
    ensures IsPart(SavedMap(list[..j]), htlcs)
    ensures forall k :: k in SavedMap(list[..j]) <==> exists i: nat :: i < j && list[i].Key() == k
    decreases j
  {
    hide SavedMap, Saved.Key;
    if j == 0 {
      NothingSaved();
      assert list[..0] == [];
    } else {
      SavedSoFar(list, j - 1, htlcs);
      SavedOneMore(list, j - 1);
    }
  }

  /**
    Where limits are not enforced and nothing overflows, `add_htlc` refuses what it admitted before for its number
    only.
   */
  lemma ReadmitsIff(cfg: Config, c: Channel, k: Key, h: Htlc)
    requires c.Sized() && k !in c.htlcs && h.lane < c.Lanes() && Owner(h.state) == k.owner && Admissible(cfg, k, h)
    requires h.lane == 0 ==>
               var pool := PoolWith(c, k, h);
               InFlightFits(pool, k.owner) && Dust(cfg, pool, k.owner).Some? && Dust(cfg, pool, k.owner.Other()).Some?
    ensures AddResult(cfg, c, k, h, false, false) == AddOk <==>
            NumOther(c.htlcs, k.owner.Other(), None) + 1 <= cfg.limits.At(k.owner.Other()).maxAcceptedHtlcs
  {
    hide InFlightFits, Dust, NumOther, PoolWith, Predicted, Affordable;
  }

  lemma PoolWithFits(cfg: Config, c: Channel, d: Channel, k: Key, h: Htlc, total: int)
    requires IsPart(d.htlcs, c.htlcs) && Bounded(c, k.owner.Other(), h.lane, total)
    requires k !in d.htlcs && Owner(h.state) == k.owner && h.amount <= total <= MAX_SUPPLY_MSAT
    ensures var pool := PoolWith(d, k, h);
            InFlightFits(pool, k.owner) && Dust(cfg, pool, k.owner).Some? && Dust(cfg, pool, k.owner.Other()).Some?
  {
    hide Sum, InFlightFits, Dust, Bounded;
    var v := k.owner.Other();
    var pool := Gather(d.htlcs, v, Some(h.lane));
    GatheredIsBounded(c, d.htlcs, v, h.lane, total);
    AmountsPut(pool.adding, k, h);
    hide Amounts;
    SmallPoolFits(cfg, PoolWith(d, k, h), k.owner);
  }

  /** How many of the other side's HTLCs the view counts, with so many of the list put back. */
  function CountSoFar(list: seq<Saved>, j: nat): nat
    requires j < |list|
  {
    NumOther(SavedMap(list[..j]), list[j].Key().owner.Other(), None)
  }

  /** `max_accepted_htlcs` is not exceeded at any place of the list. */
  predicate NeverTooMany(cfg: Config, list: seq<Saved>) {
    forall j: nat :: j < |list| ==>
      CountSoFar(list, j) + 1 <= cfg.limits.At(list[j].Key().owner.Other()).maxAcceptedHtlcs
  }

  /** What is kept is counted, committed and being added as it was. */
  lemma KeptCounts(h: Htlc, v: Side)
    requires IsKept(h)
    ensures var g := KeptHtlc(h);
            && g.lane == h.lane && g.amount == h.amount && g.expiry == h.expiry && Owner(g.state) == Owner(h.state)
            && CountsAsOther(g, v, None) == CountsAsOther(h, v, None)
            && Committed(g.state, v) == Committed(h.state, v)
            && (CommitStep(v).Moves(g.state) && !Committed(g.state, v) ==> CommitStep(v).Moves(h.state))
  {
  }

  lemma KeptIsBounded(c: Channel, v: Side, lane: nat, total: int)
    requires Bounded(c, v, lane, total)
    ensures Bounded(c.(htlcs := Kept(c.htlcs)), v, lane, total)
  {
    hide Sum, IsKept, KeptHtlc, Committed, Step.Moves, Owner;
    var kept := Kept(c.htlcs);
    forall k | k in kept ensures IsKept(c.htlcs[k]) && kept[k] == KeptHtlc(c.htlcs[k]) {
    }
    forall k | k in kept
      ensures kept[k].lane == c.htlcs[k].lane && kept[k].amount == c.htlcs[k].amount
      ensures Owner(kept[k].state) == Owner(c.htlcs[k].state)
              && Committed(kept[k].state, v) == Committed(c.htlcs[k].state, v)
      ensures CommitStep(v).Moves(kept[k].state) && !Committed(kept[k].state, v) ==>
              CommitStep(v).Moves(c.htlcs[k].state)
    {
      KeptCounts(c.htlcs[k], v);
    }
    hide Kept;
    PartIsLess(CommittedAmounts(c.htlcs, v, lane), CommittedAmounts(kept, v, lane));
    PartIsLess(AddedAmounts(c.htlcs, v, lane, Local), AddedAmounts(kept, v, lane, Local));
    PartIsLess(AddedAmounts(c.htlcs, v, lane, Remote), AddedAmounts(kept, v, lane, Remote));
  }

  lemma KeptIsAdmissible(cfg: Config, ns: seq<Node>, acts: seq<Action>, i: nat, k: Key)
    requires IsRun(cfg, ns, acts) && i < |ns| && k in Kept(ns[i].chan.htlcs)
    ensures var h := Kept(ns[i].chan.htlcs)[k];
            && Admissible(cfg, k, h) && h.lane < |ns[i].base| && h.lane < |ns[0].base|
            && h.amount <= BaseTotal(ns[0].base, h.lane)
  {
    hide IsRun, Times, CountsAsOther;
    KeptCounts(ns[i].chan.htlcs[k], Local);
    RunRecords(cfg, ns, acts, i);
    SavedHasLane(cfg, ns, acts, i, k);
    RunBoundsAmounts(cfg, ns, acts, i, k);
  }

  lemma OneReadmitted(cfg: Config, ns: seq<Node>, acts: seq<Action>, i: nat, c: Channel, list: seq<Saved>, j: nat)
    requires IsRun(cfg, ns, acts) && i < |ns| && IsSaved(ns[i], c) && Lists(list, Kept(ns[i].chan.htlcs)) && Once(list)
    requires |ns[0].base| > 0 && BaseTotal(ns[0].base, 0) <= MAX_SUPPLY_MSAT && j < |list|
    ensures c.Sized()
    ensures var d := c.(htlcs := SavedMap(list[..j]));
            AddResult(cfg, d, list[j].Key(), Unmarked(list[j].h), false, false) == AddOk
            <==> CountSoFar(list, j) + 1 <= cfg.limits.At(list[j].Key().owner.Other()).maxAcceptedHtlcs
  {
    hide IsRun, SavedMap, AddResult, NumOther, Gather, PoolWith, Dust, InFlightFits, Sum, Bounded, Kept, SavedHeights,
         SavedSwap;
    RestoreIsTheLiveRun(cfg, ns, acts, i, c, list);
    var k, h, total := list[j].Key(), list[j].h, BaseTotal(ns[0].base, 0);
    var live := ns[i].chan.(htlcs := Kept(ns[i].chan.htlcs));
    var d := c.(htlcs := SavedMap(list[..j]));
    SavedSoFar(list, j, live.htlcs);
    assert k in live.htlcs && k !in d.htlcs;
    KeptIsAdmissible(cfg, ns, acts, i, k);
    if h.lane == 0 {
      RunIsBounded(cfg, ns, acts, i, k.owner.Other(), 0);
      KeptIsBounded(ns[i].chan, k.owner.Other(), 0, total);
      PoolWithFits(cfg, live, d, k, Unmarked(h), total);
    }
    ReadmitsIff(cfg, d, k, Unmarked(h));
  }

  lemma SavedHasLane(cfg: Config, ns: seq<Node>, acts: seq<Action>, i: nat, k: Key)
    requires IsRun(cfg, ns, acts) && i < |ns| && k in ns[i].chan.htlcs
    ensures ns[i].chan.htlcs[k].lane < |ns[i].base|
  {
    hide Initial, IsStep, AllSolvent, Marked, Resting;
    RunKeepsInv(cfg, ns, acts, i);
  }

  /**
    At every point of every run, whatever the order of the list: all HTLCs that were kept are let back in if and only
    if the count is never exceeded on the way.  Nothing else can be refused.
   */
  lemma ReadmittedIff(cfg: Config, ns: seq<Node>, acts: seq<Action>, i: nat, c: Channel, list: seq<Saved>)
    requires IsRun(cfg, ns, acts) && i < |ns| && IsSaved(ns[i], c) && Lists(list, Kept(ns[i].chan.htlcs)) && Once(list)
    requires |ns[0].base| > 0 && BaseTotal(ns[0].base, 0) <= MAX_SUPPLY_MSAT
    ensures c.Sized()
    ensures Readmitted(cfg, c, list) <==> NeverTooMany(cfg, list)
  {
    hide IsRun, AddResult, CountSoFar, SavedMap, IsSaved, Kept;
    RestoreIsTheLiveRun(cfg, ns, acts, i, c, list);
    forall j: nat | j < |list|
      ensures var d := c.(htlcs := SavedMap(list[..j]));
              AddResult(cfg, d, list[j].Key(), Unmarked(list[j].h), false, false) == AddOk
              <==> CountSoFar(list, j) + 1 <= cfg.limits.At(list[j].Key().owner.Other()).maxAcceptedHtlcs
    {
      OneReadmitted(cfg, ns, acts, i, c, list, j);
    }
  }

  /** Each side's HTLCs are in the order in which they were added. */
  ghost predicate InOrder(list: seq<Saved>, times: map<Key, nat>) {
    forall i: nat, j: nat :: i < j < |list| && list[i].Key().owner == list[j].Key().owner ==>
      list[i].Key() in times && list[j].Key() in times && times[list[i].Key()] < times[list[j].Key()]
  }

  /** In the order in which they were added they are all let back in. */
  lemma OrderReadmits(cfg: Config, ns: seq<Node>, acts: seq<Action>, i: nat, c: Channel, list: seq<Saved>)
    requires IsRun(cfg, ns, acts) && i < |ns| && IsSaved(ns[i], c) && Lists(list, Kept(ns[i].chan.htlcs)) && Once(list)
    requires |ns[0].base| > 0 && BaseTotal(ns[0].base, 0) <= MAX_SUPPLY_MSAT
    requires |ns| == |acts| + 1 && InOrder(list, Times(ns, acts, i))
    ensures c.Sized() && Readmitted(cfg, c, list)
  {
    hide IsRun, Times, Readmitted, IsSaved, Kept;
    RunRecords(cfg, ns, acts, i);
    forall j: nat | j < |list|
      ensures CountSoFar(list, j) + 1 <= cfg.limits.At(list[j].Key().owner.Other()).maxAcceptedHtlcs
    {
      CountedCameBefore(ns[i].chan.htlcs, Times(ns, acts, i), list, j);
    }
    hide CountSoFar;
    ReadmittedIff(cfg, ns, acts, i, c, list);
  }

  lemma CountedCameBefore(htlcs: map<Key, Htlc>, times: map<Key, nat>, list: seq<Saved>, j: nat)
    requires Lists(list, Kept(htlcs)) && Once(list) && InOrder(list, times) && times.Keys == htlcs.Keys && j < |list|
    ensures list[j].Key() in htlcs && CountSoFar(list, j) <= |Earlier(htlcs, times, list[j].Key())|
  {
    hide SavedMap, CountsAsOther, NumOther, IsKept, KeptHtlc;
    var k := list[j].Key();
    var v := k.owner.Other();
    assert k in Kept(htlcs);
    SavedSoFar(list, j, Kept(htlcs));
    NumOtherIsOtherKeys(SavedMap(list[..j]), v, None);
    var counted := OtherKeys(SavedMap(list[..j]), v, None);
    forall x | x in counted ensures x in Earlier(htlcs, times, k) {
      var i: nat :| i < j && list[i].Key() == x;
      KeptCounts(htlcs[x], v);
      CountedIsOthers(htlcs[x], v);
      assert list[i].Key().owner == v.Other();
    }
    SubsetSize(counted, Earlier(htlcs, times, k));
  }

  lemma CountedIsOthers(h: Htlc, v: Side)
    requires CountsAsOther(h, v, None)
    ensures Owner(h.state) == v.Other()
  {
  }

  /**
    Starting again, as a whole.  What is saved at any point of any run, put through `channel_force_htlcs`, is the
    channel of the run without the updates that no commitment has, unless the count is exceeded on the way; then it
    fails.
   */
  method Restart(cfg: Config, channel: LiveChannel, list: seq<Saved>, ghost ns: seq<Node>, ghost acts: seq<Action>,
      ghost i: nat)
    returns (ok: bool)
    requires IsRun(cfg, ns, acts) && i < |ns| && Lists(list, Kept(ns[i].chan.htlcs)) && Once(list)
    requires |ns[0].base| > 0 && BaseTotal(ns[0].base, 0) <= MAX_SUPPLY_MSAT
    requires channel.Valid() && IsSaved(ns[i], channel.State())
    modifies channel`htlcs, channel`view
    ensures ok <==> NeverTooMany(cfg, list)
    ensures ok ==> && channel.Valid()
                   && channel.State() == old(channel.State()).(htlcs := Kept(ns[i].chan.htlcs), view := ns[i].chan.view)
  {
    hide IsRun, Readmitted, NeverTooMany, RestoredView, SavedMap, Adjustable, Dead, NonNegative, Kept, SavedHeights;
    RestoreIsTheLiveRun(cfg, ns, acts, i, channel.State(), list);
    ReadmittedIff(cfg, ns, acts, i, channel.State(), list);
    forall j | 0 <= j < |list| ensures !Dead(list[j].h.state) {
      assert Adjustable(list[j].h, Local);
    }
    ok := channel.ForceHtlcs(cfg, list);
  }

  // ---- A list that is refused

  const SOME_LIMITS := Limits(1, 1, 100)

  /** Room for one HTLC of each side. */
  const ONE_EACH := Config(Pair(SOME_LIMITS, SOME_LIMITS), Pair(0, 0), 100, true, false, 100,
                           (s: Side, o: Side, n: nat) => false, (s: Side, o: Side, n: nat) => false,
                           (s: Side, n: nat) => 0, (n: nat) => 0)

  const FIRST := Key(Local, 0)
  const SECOND := Key(Local, 1)

  function SomeHtlc(s: HtlcState, failed: bool): Htlc {
    Htlc(s, 1, 1, 0, 0, false, failed)
  }

  /**
    A channel with two lanes where the only HTLC, if any, is the first one, and our balance of lane 1 is at least
    `least`.
   */
  ghost predicate Alone(c: Channel, h: Option<Htlc>, least: int) {
    && c.Sized() && c.Lanes() == 2 && c.swaps == Pair(None, None) && c.req == None
    && c.htlcs == (if h.Some? then map[FIRST := h.value] else map[])
    && least <= c.Owed(Remote, 1, Local)
  }

  lemma SumOfAtMostOne(m: map<Key, int>, k: Key)
    requires m.Keys <= {k}
    ensures Sum(m) == if k in m then m[k] else 0
  {
    if k in m {
      SumTakeOut(m, k);
      assert m - {k} == map[];
    } else {
      assert m == map[];
    }
  }

  lemma TableAlone(h: Htlc, step: Step)
    requires h.lane == 1 && Owner(h.state).Local? && !Dead(step.Bump(h.state))
    ensures StepHtlcs(map[FIRST := h], step) == map[FIRST := Bumped(h, step)]
    ensures step.Changes().Remote? ==>
              Sum(StepTable(map[FIRST := h], step, 1, Local)) >=
              if step.SendingCommit? && h.state == 0 then -(h.amount as int) else 0
  {
    SumOfAtMostOne(StepTable(map[FIRST := h], step, 1, Local), FIRST);
    hide Sum;
  }

  /** A step of a channel with one HTLC. */
  lemma StepAlone(c: Channel, h: Htlc, least: int, step: Step)
    requires Alone(c, Some(h), least) && h.lane == 1 && Owner(h.state).Local? && !Dead(step.Bump(h.state))
    ensures var less := least - if step.SendingCommit? && h.state == 0 then h.amount else 0;
            Alone(Change(c, step), Some(Bumped(h, step)), less)
  {
    hide Sum, StepTable, StepHtlcs, StepHeights, Dead, Bumped, Owner;
    TableAlone(h, step);
    assert Change(c, step).Owed(Remote, 1, Local) ==
           if step.Changes().Remote? then StepOwed(c, step, 1, Local) else c.Owed(Remote, 1, Local);
  }

  lemma DoneAlone(c: Channel)
    requires c.swaps == Pair(None, None)
    ensures SwapDone(c) == c
  {
  }

  /** An HTLC of lane 1 is let in if there is room for it. */
  lemma OfferAlone(c: Channel, h: Option<Htlc>, least: int, k: Key)
    requires Alone(c, h, least) && least >= 1 && k == (if h.Some? then SECOND else FIRST)
    requires h.Some? ==> h.value == SomeHtlc(SENT_REMOVE_REVOCATION, true)
    ensures AddResult(ONE_EACH, c, k, SomeHtlc(SENT_ADD_HTLC, false), true, true) == AddOk
  {
    var g := SomeHtlc(SENT_ADD_HTLC, false);
    NumOtherIsOtherKeys(c.htlcs, Remote, None);
    assert OtherKeys(c.htlcs, Remote, None) == {};
    PoolWithTables(c, k, g, Local);
    var pool := Gather(c.htlcs, Remote, Some(1));
    SumOfAtMostOne(RemovingTable(pool, Local), FIRST);
    assert AddingTable(pool, Local) == map[];
    assert Sum(AddingTable(pool, Local)) == 0;
    hide Sum, NumOther, PoolWith, Gather;
    assert Predicted(c, Remote, 1, PoolWith(c, k, g), Local) >= 0;
  }

  ghost predicate AloneNode(n: Node, h: Option<Htlc>, least: int, awaiting: bool) {
    Alone(n.chan, h, least) && n.awaiting == awaiting
  }

  lemma CommitAlone(n: Node, s: HtlcState, failed: bool, least: int)
    requires AloneNode(n, Some(SomeHtlc(s, failed)), least, false) && (s == 2 || s == 5)
    ensures Enabled(ONE_EACH, n, RecvCommit(None))
    ensures AloneNode(Next(n, RecvCommit(None)), Some(SomeHtlc(s + 2, failed)), least, false)
  {
    hide Change, AddResult;
    StepAlone(n.chan, SomeHtlc(s, failed), least, RcvdCommit);
    var m := Committing(n, RcvdCommit);
    StepAlone(m.chan, SomeHtlc(s + 1, failed), least, SendingRevoke);
    DoneAlone(Change(m.chan, SendingRevoke));
  }

  lemma FirstOffer(n: Node)
    requires AloneNode(n, None, 10, false)
    ensures Enabled(ONE_EACH, n, Offer(FIRST, SomeHtlc(SENT_ADD_HTLC, false)))
    ensures var h := SomeHtlc(SENT_ADD_HTLC, false); AloneNode(Next(n, Offer(FIRST, h)), Some(h), 10, false)
  {
    OfferAlone(n.chan, None, 10, FIRST);
    hide AddResult, Change;
  }

  lemma SendAlone(n: Node)
    requires AloneNode(n, Some(SomeHtlc(SENT_ADD_HTLC, false)), 10, false)
    ensures Enabled(ONE_EACH, n, SendCommit)
    ensures AloneNode(Next(n, SendCommit), Some(SomeHtlc(SENT_ADD_COMMIT, false)), 9, true)
  {
    hide AddResult, Change;
    assert FIRST in n.chan.htlcs && SendingCommit.Moves(n.chan.htlcs[FIRST].state);
    StepAlone(n.chan, SomeHtlc(SENT_ADD_HTLC, false), 10, SendingCommit);
  }

  lemma RevokeAlone(n: Node)
    requires AloneNode(n, Some(SomeHtlc(SENT_ADD_COMMIT, false)), 9, true)
    ensures Enabled(ONE_EACH, n, RecvRevoke)
    ensures AloneNode(Next(n, RecvRevoke), Some(SomeHtlc(RCVD_ADD_REVOCATION, false)), 9, false)
  {
    hide AddResult, Change;
    StepAlone(n.chan, SomeHtlc(SENT_ADD_COMMIT, false), 9, RcvdRevoke);
    DoneAlone(Change(n.chan, RcvdRevoke));
  }

  lemma FailAlone(n: Node)
    requires AloneNode(n, Some(SomeHtlc(SENT_ADD_ACK_REVOCATION, false)), 9, false)
    ensures Enabled(ONE_EACH, n, Settle(FIRST, false))
    ensures AloneNode(Next(n, Settle(FIRST, false)), Some(SomeHtlc(RCVD_REMOVE_HTLC, true)), 9, false)
  {
    hide AddResult, Change;
  }

  lemma LastOffer(n: Node)
    requires AloneNode(n, Some(SomeHtlc(SENT_REMOVE_REVOCATION, true)), 9, false)
    ensures Enabled(ONE_EACH, n, Offer(SECOND, SomeHtlc(SENT_ADD_HTLC, false)))
    ensures var m := Next(n, Offer(SECOND, SomeHtlc(SENT_ADD_HTLC, false)));
            && !m.awaiting
            && m.chan.htlcs ==
               map[FIRST := SomeHtlc(SENT_REMOVE_REVOCATION, true), SECOND := SomeHtlc(SENT_ADD_HTLC, false)]
  {
    OfferAlone(n.chan, Some(SomeHtlc(SENT_REMOVE_REVOCATION, true)), 9, SECOND);
    hide AddResult, Change;
  }

  lemma LastCommit(n: Node)
    requires n.chan.Sized() && !n.awaiting
    requires n.chan.htlcs ==
             map[FIRST := SomeHtlc(SENT_REMOVE_REVOCATION, true), SECOND := SomeHtlc(SENT_ADD_HTLC, false)]
    ensures Enabled(ONE_EACH, n, SendCommit)
    ensures Next(n, SendCommit).chan.htlcs ==
            map[FIRST := SomeHtlc(SENT_REMOVE_ACK_COMMIT, true), SECOND := SomeHtlc(SENT_ADD_COMMIT, false)]
  {
    assert FIRST in n.chan.htlcs && SendingCommit.Moves(n.chan.htlcs[FIRST].state);
  }

  function NewNode(): Node {
    var base := [Pair(10, 10), Pair(10, 10)];
    Node(Channel(map[], Pair(base, base), Pair(None, None), None, map[], Local), false, base)
  }

  lemma Extended(cfg: Config, ns: seq<Node>, acts: seq<Action>, a: Action) returns (ns': seq<Node>, acts': seq<Action>)
    requires IsRun(cfg, ns, acts) && |ns| == |acts| + 1 && ns[|acts|].chan.Sized() && Enabled(cfg, ns[|acts|], a)
    ensures IsRun(cfg, ns', acts') && |ns'| == |acts'| + 1 && |acts'| == |acts| + 1
    ensures ns'[0] == ns[0] && ns'[|acts'|] == Next(ns[|acts|], a)
  {
    hide AddResult, SwapCheck, CanSettle;
    assert a.Settle? ==> CanSettle(ns[|acts|].chan, a.k);
    hide Enabled, Next, Initial;
    ns', acts' := ns + [Next(ns[|acts|], a)], acts + [a];
  }

  /**
    A run in which the first HTLC is added, committed by both sides, failed, and committed again by the peer; then
    the second is added and both are committed.
   */
  lemma SomeRun() returns (ns: seq<Node>, acts: seq<Action>)
    ensures IsRun(ONE_EACH, ns, acts) && |ns| == |acts| + 1 && ns[0] == NewNode()
    ensures ns[|acts|].chan.htlcs ==
            map[FIRST := SomeHtlc(SENT_REMOVE_ACK_COMMIT, true), SECOND := SomeHtlc(SENT_ADD_COMMIT, false)]
  {
    ns, acts := [NewNode()], [];
    assert AloneNode(ns[0], None, 10, false) && IsRun(ONE_EACH, ns, acts);
    hide AloneNode, Enabled, Next, IsRun, SomeHtlc;
    FirstOffer(ns[|acts|]);
    ns, acts := Extended(ONE_EACH, ns, acts, Offer(FIRST, SomeHtlc(SENT_ADD_HTLC, false)));
    SendAlone(ns[|acts|]);
    ns, acts := Extended(ONE_EACH, ns, acts, SendCommit);
    RevokeAlone(ns[|acts|]);
    ns, acts := Extended(ONE_EACH, ns, acts, RecvRevoke);
    CommitAlone(ns[|acts|], RCVD_ADD_REVOCATION, false, 9);
    ns, acts := Extended(ONE_EACH, ns, acts, RecvCommit(None));
    FailAlone(ns[|acts|]);
    ns, acts := Extended(ONE_EACH, ns, acts, Settle(FIRST, false));
    CommitAlone(ns[|acts|], RCVD_REMOVE_HTLC, true, 9);
    ns, acts := Extended(ONE_EACH, ns, acts, RecvCommit(None));
    LastOffer(ns[|acts|]);
    ns, acts := Extended(ONE_EACH, ns, acts, Offer(SECOND, SomeHtlc(SENT_ADD_HTLC, false)));
    LastCommit(ns[|acts|]);
    ns, acts := Extended(ONE_EACH, ns, acts, SendCommit);
  }

  /**
    Put back the other way round, the first one is refused: it is not counted itself, but finds the only place taken.
   */
  lemma OutOfOrderIsRefused() returns (ns: seq<Node>, acts: seq<Action>, c: Channel, list: seq<Saved>)
    ensures IsRun(ONE_EACH, ns, acts) && |ns| == |acts| + 1
    ensures IsSaved(ns[|acts|], c) && Lists(list, Kept(ns[|acts|].chan.htlcs)) && Once(list)
    ensures |ns[0].base| > 0 && BaseTotal(ns[0].base, 0) <= MAX_SUPPLY_MSAT
    ensures c.Sized() && !Readmitted(ONE_EACH, c, list)
  {
    ns, acts := SomeRun();
    var n := ns[|acts|];
    c := n.chan.(htlcs := map[], view := Pair(n.base, n.base));
    var first, second := Saved(0, SomeHtlc(SENT_REMOVE_ACK_COMMIT, true)), Saved(1, SomeHtlc(SENT_ADD_COMMIT, false));
    list := [second, first];
    hide IsRun;
    assert list[..1] == [second] && list[..0] == [] && list[..2] == list;
    NothingSaved();
    SavedOneMore(list, 0);
    SavedOneMore(list, 1);
    hide SavedMap;
    assert Kept(n.chan.htlcs) == n.chan.htlcs;
    NumOtherIsOtherKeys(map[SECOND := second.h], Remote, None);
    assert OtherKeys(map[SECOND := second.h], Remote, None) == {SECOND};
    hide NumOther, Kept;
    assert CountSoFar(list, 1) == 1;
    ReadmittedIff(ONE_EACH, ns, acts, |acts|, c, list);
  }
}
