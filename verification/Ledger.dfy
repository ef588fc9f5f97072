/**
  Where every balance comes from.  In every view and lane, what a side is owed is a base that both
  views share plus one contribution per live HTLC and per swap in flight, each read off its state.
  The base changes only when an HTLC dies or a swap is forgotten, by what both views then agree on.
 */
module Ledger {
  import opened Sides
  import opened HtlcStates
  import opened Sums
  import opened ChannelState

  /** `adjust_balance`: what an HTLC in this state has done to `p`'s balance in view `v` so far. */
  function Adjust(h: Htlc, v: Side, p: Side): int {
    if !WasCommitted(h.state, v) then 0
    else AddEffect(h, p) + if Committed(h.state, v) then 0 else RemoveEffect(h, p)
  }

  function AdjustTable(htlcs: map<Key, Htlc>, v: Side, lane: nat, p: Side): map<Key, int> {
    map k | k in htlcs && htlcs[k].lane == lane :: Adjust(htlcs[k], v, p)
  }

  function SwapAdjust(s: Option<Swap>, v: Side, lane: nat, p: Side): int {
    if s.Some? && Committed(s.value.state, v) then SwapEffect(s.value, lane, p) else 0
  }

  /** The balance the state of the HTLCs and swaps accounts for. */
  ghost function Accounted(c: Channel, base: Balances, v: Side, lane: nat, p: Side): int
    requires lane < |base|
  {
    base[lane].At(p) + Sum(AdjustTable(c.htlcs, v, lane, p))
    + SwapAdjust(c.swaps.local, v, lane, p) + SwapAdjust(c.swaps.remote, v, lane, p)
  }

  /** The central invariant: every balance of both views is accounted for over one base. */
  ghost predicate Explained(c: Channel, base: Balances)
    requires c.WellFormed()
  {
    && |base| == c.Lanes()
    && forall v: Side, lane: nat, p: Side :: lane < c.Lanes() ==> c.Owed(v, lane, p) == Accounted(c, base, v, lane, p)
  }

  /** What the HTLCs that die in a step settled, the same in both views. */
  function DeadTable(htlcs: map<Key, Htlc>, step: Step, lane: nat, p: Side): map<Key, int> {
    map k | k in htlcs && htlcs[k].lane == lane && Dead(step.Bump(htlcs[k].state)) ::
      AddEffect(htlcs[k], p) + RemoveEffect(htlcs[k], p)
  }

  ghost function BaseAfterStep(c: Channel, base: Balances, step: Step): Balances {
    seq(|base|, lane requires 0 <= lane < |base| =>
      Pair(base[lane].local + Sum(DeadTable(c.htlcs, step, lane, Local)),
           base[lane].remote + Sum(DeadTable(c.htlcs, step, lane, Remote))))
  }

  function ForgottenEffect(s: Option<Swap>, lane: nat, p: Side): int {
    if s.Some? && Forgotten(s).None? then SwapEffect(s.value, lane, p) else 0
  }

  function BaseAfterDone(c: Channel, base: Balances): Balances {
    seq(|base|, lane requires 0 <= lane < |base| =>
      Pair(base[lane].local
           + ForgottenEffect(c.swaps.local, lane, Local) + ForgottenEffect(c.swaps.remote, lane, Local),
           base[lane].remote
           + ForgottenEffect(c.swaps.local, lane, Remote) + ForgottenEffect(c.swaps.remote, lane, Remote)))
  }

  /** One HTLC: a step changes its contribution to the changed view by exactly what it does to the balance there. */
  lemma StepAdjusts(h: Htlc, step: Step, v: Side, p: Side)
    requires !Dead(h.state)
    ensures step.Moves(h.state) ==>
              Adjust(Bumped(h, step), v, p) ==
              Adjust(h, v, p) + if v == step.Changes() then AdvanceEffect(h, v, p) else 0
    ensures Dead(step.Bump(h.state)) ==> Adjust(Bumped(h, step), v, p) == AddEffect(h, p) + RemoveEffect(h, p)
  {
    if step.Moves(h.state) {
      StepFlags(step, h.state, v);
    }
  }

  function BumpedTable(htlcs: map<Key, Htlc>, step: Step, v: Side, lane: nat, p: Side): map<Key, int> {
    map k | k in htlcs && htlcs[k].lane == lane :: Adjust(Bumped(htlcs[k], step), v, p)
  }

  function DiffTable(htlcs: map<Key, Htlc>, step: Step, v: Side, lane: nat, p: Side): map<Key, int> {
    map k | k in htlcs && htlcs[k].lane == lane ::
      if v == step.Changes() && step.Moves(htlcs[k].state) then AdvanceEffect(htlcs[k], v, p) else 0
  }

  lemma DiffIsStepTable(htlcs: map<Key, Htlc>, step: Step, v: Side, lane: nat, p: Side)
    ensures Sum(DiffTable(htlcs, step, v, lane, p)) ==
            if v == step.Changes() then Sum(StepTable(htlcs, step, lane, p)) else 0
  {
    if v == step.Changes() {
      SumSupport(DiffTable(htlcs, step, v, lane, p), StepTable(htlcs, step, lane, p));
    } else {
      SumZero(DiffTable(htlcs, step, v, lane, p));
    }
  }

  lemma BumpedIsBeforePlusDiff(htlcs: map<Key, Htlc>, step: Step, v: Side, lane: nat, p: Side)
    requires forall k :: k in htlcs ==> !Dead(htlcs[k].state)
    ensures Sum(BumpedTable(htlcs, step, v, lane, p)) ==
            Sum(AdjustTable(htlcs, v, lane, p)) + Sum(DiffTable(htlcs, step, v, lane, p))
  {
    var before := AdjustTable(htlcs, v, lane, p);
    var diff := DiffTable(htlcs, step, v, lane, p);
    var after := BumpedTable(htlcs, step, v, lane, p);
    forall k | k in before ensures before[k] + diff[k] == after[k] {
      StepAdjusts(htlcs[k], step, v, p);
    }
    SumAdd(before, diff, after);
  }

  lemma BumpedIsAfterPlusDead(htlcs: map<Key, Htlc>, step: Step, v: Side, lane: nat, p: Side)
    requires forall k :: k in htlcs ==> !Dead(htlcs[k].state)
    ensures Sum(BumpedTable(htlcs, step, v, lane, p)) ==
            Sum(AdjustTable(StepHtlcs(htlcs, step), v, lane, p)) + Sum(DeadTable(htlcs, step, lane, p))
  {
    var dead := DeadTable(htlcs, step, lane, p);
    forall k | k in dead ensures Adjust(Bumped(htlcs[k], step), v, p) == dead[k] {
      StepAdjusts(htlcs[k], step, v, p);
    }
    SumUnion(BumpedTable(htlcs, step, v, lane, p), AdjustTable(StepHtlcs(htlcs, step), v, lane, p), dead);
  }

  /** All HTLCs of a lane: the sum of contributions moves by the step's effect, less what died. */
  lemma StepAdjustsTable(htlcs: map<Key, Htlc>, step: Step, v: Side, lane: nat, p: Side)
    requires forall k :: k in htlcs ==> !Dead(htlcs[k].state)
    ensures Sum(AdjustTable(StepHtlcs(htlcs, step), v, lane, p)) + Sum(DeadTable(htlcs, step, lane, p)) ==
            Sum(AdjustTable(htlcs, v, lane, p))
            + if v == step.Changes() then Sum(StepTable(htlcs, step, lane, p)) else 0
  {
    BumpedIsBeforePlusDiff(htlcs, step, v, lane, p);
    BumpedIsAfterPlusDead(htlcs, step, v, lane, p);
    DiffIsStepTable(htlcs, step, v, lane, p);
  }

  lemma StepAdjustsSwap(s: Option<Swap>, step: Step, v: Side, lane: nat, p: Side)
    requires s.Some? ==> IsAdding(s.value.state) || Irrevocable(s.value.state)
    ensures SwapAdjust(StepSwap(s, step), v, lane, p) ==
            SwapAdjust(s, v, lane, p) + if v == step.Changes() then SwapStepEffect(s, step, lane, p) else 0
  {
    if s.Some? && step.Moves(s.value.state) {
      StepFlags(step, s.value.state, v);
    }
  }

  lemma ChangeWellFormed(c: Channel, step: Step)
    requires c.WellFormed()
    ensures Change(c, step).WellFormed()
  {
  }

  lemma ChangeAccounted(c: Channel, base: Balances, step: Step, v: Side, lane: nat, p: Side)
    requires c.WellFormed() && lane < c.Lanes() == |base|
    requires c.Owed(v, lane, p) == Accounted(c, base, v, lane, p)
    ensures Change(c, step).Owed(v, lane, p) == Accounted(Change(c, step), BaseAfterStep(c, base, step), v, lane, p)
  {
    hide Sum, SwapAdjust, SwapStepEffect, StepSwap, AdjustTable, StepTable, StepHtlcs, StepHeights, DeadTable;
    StepAdjustsTable(c.htlcs, step, v, lane, p);
    StepAdjustsSwap(c.swaps.local, step, v, lane, p);
    StepAdjustsSwap(c.swaps.remote, step, v, lane, p);
  }

  /** Every step keeps the invariant, over a base that moves only by what died. */
  lemma ChangeExplained(c: Channel, base: Balances, step: Step)
    requires c.WellFormed() && Explained(c, base)
    ensures Change(c, step).WellFormed() && Explained(Change(c, step), BaseAfterStep(c, base, step))
  {
    ChangeWellFormed(c, step);
    forall v: Side, lane: nat, p: Side | lane < c.Lanes()
      ensures Change(c, step).Owed(v, lane, p) == Accounted(Change(c, step), BaseAfterStep(c, base, step), v, lane, p)
    {
      ChangeAccounted(c, base, step, v, lane, p);
    }
  }

  /** Forgetting a finished swap, which both views have, moves it into the base. */
  lemma DoneExplained(c: Channel, base: Balances)
    requires c.WellFormed() && Explained(c, base)
    ensures SwapDone(c).WellFormed() && Explained(SwapDone(c), BaseAfterDone(c, base))
  {
    var d, base' := SwapDone(c), BaseAfterDone(c, base);
    forall v: Side, lane: nat, p: Side | lane < c.Lanes()
      ensures d.Owed(v, lane, p) == Accounted(d, base', v, lane, p)
    {
      hide Sum, AdjustTable, SwapEffect;
      assert c.Owed(v, lane, p) == Accounted(c, base, v, lane, p);
    }
  }

  /**
    An HTLC put under `k` that has done to each view what the one it replaces had done leaves every balance explained.
   */
  lemma PutExplained(c: Channel, base: Balances, k: Key, h: Htlc)
    requires c.WellFormed() && Explained(c, base) && Offered(c, k, h).WellFormed()
    requires k in c.htlcs ==> h.lane == c.htlcs[k].lane
    requires forall v: Side, p: Side :: Adjust(h, v, p) == if k in c.htlcs then Adjust(c.htlcs[k], v, p) else 0
    ensures Explained(Offered(c, k, h), base)
  {
    var d := Offered(c, k, h);
    forall v: Side, lane: nat, p: Side | lane < c.Lanes() ensures d.Owed(v, lane, p) == Accounted(d, base, v, lane, p) {
      hide Sum, Adjust;
      assert c.Owed(v, lane, p) == Accounted(c, base, v, lane, p);
      assert Adjust(h, v, p) == if k in c.htlcs then Adjust(c.htlcs[k], v, p) else 0;
      SumSupport(AdjustTable(d.htlcs, v, lane, p), AdjustTable(c.htlcs, v, lane, p));
    }
  }
}
