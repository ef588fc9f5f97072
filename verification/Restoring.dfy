/**
  Starting again from what was saved gives back the balances of the live run, and no sum on the way leaves the
  64-bit integers the balances are kept in.
 */
module Restoring {
  import opened Sides
  import opened HtlcStates
  import opened Sums
  import opened ChannelState
  import opened Ledger
  import opened Admission
  import opened Runs
  import opened Solvency
  import opened Settlement
  import opened HtlcWalks
  import opened FullChannel
  import opened Persistence

  /** `list` holds exactly these HTLCs. */
  ghost predicate Lists(list: seq<Saved>, htlcs: map<Key, Htlc>) {
    && SavedMap(list) == htlcs
    && forall i: nat :: i < |list| ==> list[i].Key() in htlcs && htlcs[list[i].Key()] == list[i].h
  }

  /** What is not kept has done nothing to any balance, and what is turned back had done the same. */
  lemma KeptAdjust(h: Htlc, v: Side, p: Side)
    ensures Adjust(h, v, p) == if IsKept(h) then Adjust(KeptHtlc(h), v, p) else 0
    ensures KeptHtlc(h).lane == h.lane && Owner(KeptHtlc(h).state) == Owner(h.state)
    ensures Adjustable(h, v) ==> Adjustable(KeptHtlc(h), v)
    ensures Dead(KeptHtlc(h).state) == Dead(h.state)
  {
  }

  lemma KeptTable(htlcs: map<Key, Htlc>, v: Side, lane: nat, p: Side)
    ensures Sum(AdjustTable(Kept(htlcs), v, lane, p)) == Sum(AdjustTable(htlcs, v, lane, p))
  {
    hide Sum, Adjust, IsKept, KeptHtlc;
    var all, kept := AdjustTable(htlcs, v, lane, p), AdjustTable(Kept(htlcs), v, lane, p);
    forall k | k in htlcs
      ensures k in kept <==> k in all && IsKept(htlcs[k])
      ensures k in all ==> all[k] == if k in kept then kept[k] else 0
    {
      KeptAdjust(htlcs[k], v, p);
    }
    SumSupport(all, kept);
  }

  lemma SavedSwapAdjust(live: Option<Swap>, saved: Option<Swap>, v: Side, lane: nat, p: Side)
    requires SavedSwap(live, saved)
    ensures SwapAdjust(saved, v, lane, p) == SwapAdjust(live, v, lane, p)
  {
  }

  /** The base balances and the kept HTLCs account for the live balances. */
  lemma KeptBalances(n: Node, c: Channel)
    requires n.chan.WellFormed() && Explained(n.chan, n.base) && IsSaved(n, c)
    ensures c.Sized() && RestoredView(c, Kept(n.chan.htlcs)) == n.chan.view
  {
    hide Sum, AdjustTable, SwapAdjust, Kept, SavedSwap, SavedHeights;
    var r, live := RestoredView(c, Kept(n.chan.htlcs)), n.chan;
    forall v: Side, lane: nat, p: Side | lane < live.Lanes()
      ensures Accounted(c.(htlcs := Kept(live.htlcs)), n.base, v, lane, p) == live.Owed(v, lane, p)
    {
      KeptTable(live.htlcs, v, lane, p);
      SavedSwapAdjust(live.swaps.local, c.swaps.local, v, lane, p);
    }
    hide Accounted;
    forall lane: nat | lane < live.Lanes() ensures r.local[lane] == live.view.local[lane] {
      assert live.Owed(Local, lane, Local) == live.view.local[lane].local;
      assert live.Owed(Local, lane, Remote) == live.view.local[lane].remote;
    }
    forall lane: nat | lane < live.Lanes() ensures r.remote[lane] == live.view.remote[lane] {
      assert live.Owed(Remote, lane, Local) == live.view.remote[lane].local;
      assert live.Owed(Remote, lane, Remote) == live.view.remote[lane].remote;
    }
    assert r.local == live.view.local && r.remote == live.view.remote;
  }

  /**
    At every point of every run: base balances that hold exactly the dead HTLCs and the finished swaps, put through
    `channel_force_htlcs` with the HTLCs that were kept and the swap in flight, give the balances of the live run,
    view by view and lane by lane.  The only way it can refuse is `add_htlc` refusing an HTLC.
   */
  lemma {:induction false} RestoreIsTheLiveRun(cfg: Config, ns: seq<Node>, acts: seq<Action>, i: nat, c: Channel,
      list: seq<Saved>)
    requires IsRun(cfg, ns, acts) && i < |ns| && IsSaved(ns[i], c) && Lists(list, Kept(ns[i].chan.htlcs))
    ensures c.Sized()
    ensures RestoredView(c, SavedMap(list)) == ns[i].chan.view
    ensures NonNegative(ns[i].chan.view)
    ensures forall j: nat, v: Side :: j < |list| ==> Adjustable(list[j].h, v) && !Dead(list[j].h.state)
  {
    hide Initial, IsStep, SavedMap, IsSaved, IsKept, KeptHtlc;
    RunKeepsInv(cfg, ns, acts, i);
    var n := ns[i];
    KeptBalances(n, c);
    forall j: nat, v: Side | j < |list| ensures Adjustable(list[j].h, v) && !Dead(list[j].h.state) {
      var k := list[j].Key();
      assert k in Kept(n.chan.htlcs);
      assert Adjustable(n.chan.htlcs[k], v);
      KeptAdjust(n.chan.htlcs[k], v, Local);
    }
    forall v: Side, lane: nat, p: Side | lane < n.chan.Lanes() ensures 0 <= n.chan.view.At(v)[lane].At(p) {
      assert 0 <= n.chan.Owed(v, lane, p);
    }
  }

  // ---- 64-bit balances

  const S64_LIMIT := 0x8000_0000_0000_0000

  /** What the HTLCs that `p` adds in view `v`'s next commit step take from it. */
  function AddedAmounts(htlcs: map<Key, Htlc>, v: Side, lane: nat, p: Side): map<Key, int> {
    map k | k in htlcs && CommitStep(v).Moves(htlcs[k].state) && htlcs[k].lane == lane
            && !Committed(htlcs[k].state, v) && Owner(htlcs[k].state) == p :: htlcs[k].amount
  }

  /** What an HTLC takes when a view commits it, and at most gives when the view drops it. */
  lemma OneGain(h: Htlc, v: Side, p: Side)
    requires CommitStep(v).Moves(h.state)
    ensures Committed(h.state, v) ==> 0 <= AdvanceEffect(h, v, p) <= h.amount
    ensures !Committed(h.state, v) ==> AdvanceEffect(h, v, p) == if Owner(h.state) == p then -(h.amount as int) else 0
  {
    StepFlags(CommitStep(v), h.state, v);
  }

  /** What a view's next commit step gives back is committed in the view. */
  lemma GainsAreCommitted(htlcs: map<Key, Htlc>, v: Side, lane: nat, p: Side)
    ensures Sum(StepTable(htlcs, CommitStep(v), lane, p)) + Sum(AddedAmounts(htlcs, v, lane, p))
            <= Sum(CommittedAmounts(htlcs, v, lane))
  {
    hide Sum, AdvanceEffect, Step.Moves, Committed, Owner;
    var step, added := StepTable(htlcs, CommitStep(v), lane, p), AddedAmounts(htlcs, v, lane, p);
    var locked := CommittedAmounts(htlcs, v, lane);
    var a := map k | k in step :: if k in added then added[k] else 0;
    var l := map k | k in step :: if k in locked then locked[k] else 0;
    forall k | k in step ensures step[k] + a[k] <= l[k] {
      OneGain(htlcs[k], v, p);
    }
    SumSupport(a, added);
    SumBelow(step, a, l);
    PartSupport(l, locked);
  }

  lemma SumBelow(x: map<Key, int>, y: map<Key, int>, z: map<Key, int>)
    requires x.Keys == y.Keys == z.Keys && forall k :: k in x ==> x[k] + y[k] <= z[k]
    ensures Sum(x) + Sum(y) <= Sum(z)
  {
    hide Sum;
    var both := map k | k in x :: x[k] + y[k];
    SumAdd(x, y, both);
    SumMonotone(both, z);
  }

  /** A table that is another's entries where it has them and zero elsewhere sums to no more. */
  lemma PartSupport(l: map<Key, int>, locked: map<Key, int>)
    requires forall k :: k in locked ==> 0 <= locked[k]
    requires forall k :: k in l ==> l[k] == if k in locked then locked[k] else 0
    ensures Sum(l) <= Sum(locked)
  {
    hide Sum;
    var part := map k | k in l && k in locked :: locked[k];
    SumSupport(l, part);
    PartIsLess(locked, part);
  }

  /** The part of a walk seen so far neither gains more than the view has committed nor takes more than the whole. */
  lemma PartBetween(all: map<Key, Htlc>, done: map<Key, Htlc>, todo: map<Key, Htlc>, v: Side, lane: nat, p: Side)
    requires Walk(all, done, todo)
    ensures -Sum(AddedAmounts(all, v, lane, p)) <= Sum(StepTable(done, CommitStep(v), lane, p)) <=
            Sum(CommittedAmounts(all, v, lane))
  {
    hide Sum;
    GainsAreCommitted(done, v, lane, p);
    SumNonNegative(AddedAmounts(done, v, lane, p));
    PartIsLess(CommittedAmounts(all, v, lane), CommittedAmounts(done, v, lane));
    LossesAreAdded(done, v, lane, p);
    PartIsLess(AddedAmounts(all, v, lane, p), AddedAmounts(done, v, lane, p));
  }

  lemma LossesAreAdded(htlcs: map<Key, Htlc>, v: Side, lane: nat, p: Side)
    ensures 0 <= Sum(StepTable(htlcs, CommitStep(v), lane, p)) + Sum(AddedAmounts(htlcs, v, lane, p))
  {
    hide Sum, AdvanceEffect, Step.Moves, Committed, Owner;
    var step, added := StepTable(htlcs, CommitStep(v), lane, p), AddedAmounts(htlcs, v, lane, p);
    var a := map k | k in step :: if k in added then added[k] else 0;
    var both := map k | k in step :: step[k] + a[k];
    forall k | k in step ensures 0 <= both[k] {
      OneGain(htlcs[k], v, p);
    }
    SumSupport(a, added);
    SumAdd(step, a, both);
    SumNonNegative(both);
  }

  /** What a side adds to its own view is already committed in the other. */
  lemma OwnAddsAreCommitted(c: Channel, awaiting: bool, v: Side, lane: nat)
    requires c.WellFormed() && Resting(c, awaiting)
    ensures Sum(AddedAmounts(c.htlcs, v, lane, v)) <= Sum(CommittedAmounts(c.htlcs, v.Other(), lane))
  {
    hide Sum;
    PartIsLess(CommittedAmounts(c.htlcs, v.Other(), lane), AddedAmounts(c.htlcs, v, lane, v));
  }

  /**
    In whatever order a commit step takes the HTLCs, no balance leaves the range of a 64-bit signed
    integer on the way, as long as the lane holds less than 2^63 in all.
   */
  lemma NoBalanceWraps(cfg: Config, ns: seq<Node>, acts: seq<Action>, i: nat, v: Side, lane: nat, p: Side,
                       done: map<Key, Htlc>, todo: map<Key, Htlc>)
    requires IsRun(cfg, ns, acts) && i < |ns| && lane < |ns[0].base| && BaseTotal(ns[0].base, lane) < S64_LIMIT
    requires Walk(ns[i].chan.htlcs, done, todo)
    ensures ns[i].chan.Sized() && lane < ns[i].chan.Lanes()
    ensures -S64_LIMIT < ns[i].chan.Owed(v, lane, p) + Sum(StepTable(done, CommitStep(v), lane, p)) < S64_LIMIT
  {
    hide Initial, IsStep, Sum, StepTable, AddedAmounts, CommittedAmounts, Walk;
    RunKeepsInv(cfg, ns, acts, i);
    RunKeepsBaseTotal(cfg, ns, acts, i, lane);
    var c := ns[i].chan;
    assert lane < c.Lanes();
    TotalIsBaseTotal(c, ns[i].base, v, lane);
    TotalIsBaseTotal(c, ns[i].base, v.Other(), lane);
    assert 0 <= c.Owed(v, lane, Local) && 0 <= c.Owed(v, lane, Remote);
    assert 0 <= c.Owed(v.Other(), lane, Local) && 0 <= c.Owed(v.Other(), lane, Remote);
    PartBetween(c.htlcs, done, todo, v, lane, p);
    GainsAreCommitted(c.htlcs, v, lane, p);
    if p == v {
      OwnAddsAreCommitted(c, ns[i].awaiting, v, lane);
    } else {
      assert Solvent(c, v, lane);
      HeldIsNotNegative(c, v, lane, p);
    }
  }

  lemma HeldIsNotNegative(c: Channel, v: Side, lane: nat, p: Side)
    ensures 0 <= Held(c, v, lane, p)
  {
  }
}
