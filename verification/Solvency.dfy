/**
  The "balance underflow" failures of `change_htlcs` cannot happen: when every HTLC passed `add_htlc`
  and every swap passed `channel_sym_swap_check`, each commit step of every run leaves every balance of
  every lane non-negative.
 */
module Solvency {
  import opened Sides
  import opened HtlcStates
  import opened Sums
  import opened ChannelState
  import opened Ledger
  import opened Admission
  import opened Runs

  // ---- How a step changes what is pending in a view

  /** Once a view's commit step is taken nothing is pending in that view. */
  lemma CommitClearsTable(htlcs: map<Key, Htlc>, v: Side, lane: nat, p: Side)
    ensures StepTable(StepHtlcs(htlcs, CommitStep(v)), CommitStep(v), lane, p) == map[]
  {
  }

  lemma OtherStepOnPending(h: Htlc, step: Step, v: Side)
    requires step != CommitStep(v)
    ensures CommitStep(v).Moves(h.state) ==> Bumped(h, step) == h && !Dead(h.state)
    ensures !CommitStep(v).Moves(h.state) && CommitStep(v).Moves(step.Bump(h.state)) ==>
              0 <= AdvanceEffect(Bumped(h, step), v, v.Other())
  {
  }

  /** Another step leaves what is pending in a view, and may only let its other side receive more. */
  lemma OtherStepGrowsTable(htlcs: map<Key, Htlc>, step: Step, v: Side, lane: nat)
    requires step != CommitStep(v)
    ensures Sum(StepTable(htlcs, CommitStep(v), lane, v.Other()))
            <= Sum(StepTable(StepHtlcs(htlcs, step), CommitStep(v), lane, v.Other()))
  {
    hide Sum, AdvanceEffect;
    var before := StepTable(htlcs, CommitStep(v), lane, v.Other());
    var after := StepTable(StepHtlcs(htlcs, step), CommitStep(v), lane, v.Other());
    var more := map k | k in after && k !in before :: after[k];
    forall k | k in htlcs
      ensures k in before ==> k in after && after[k] == before[k]
      ensures k in more ==> 0 <= more[k]
    {
      OtherStepOnPending(htlcs[k], step, v);
    }
    SumUnion(after, before, more);
    SumNonNegative(more);
  }

  /** Only a received revocation can make anything pending in our own view. */
  lemma SendingKeepsOurTable(htlcs: map<Key, Htlc>, step: Step, lane: nat, p: Side)
    requires step.SendingCommit? || step.SendingRevoke?
    ensures StepTable(StepHtlcs(htlcs, step), RcvdCommit, lane, p) == StepTable(htlcs, RcvdCommit, lane, p)
  {
    hide AdvanceEffect;
  }

  /** A revocation moves no balance. */
  lemma RevokeMovesNoBalance(c: Channel, step: Step)
    requires c.Sized() && (step.RcvdRevoke? || step.SendingRevoke?)
    ensures Change(c, step).view == c.view
  {
    forall lane: nat, p: Side | lane < c.Lanes()
      ensures StepOwed(c, step, lane, p) == c.Owed(step.Changes(), lane, p)
    {
      SumZero(StepTable(c.htlcs, step, lane, p));
    }
    var v := step.Changes();
    forall lane: nat | lane < c.Lanes() ensures StepView(c, step)[lane] == c.view.At(v)[lane] {
      assert StepOwed(c, step, lane, Local) == c.Owed(v, lane, Local);
      assert StepOwed(c, step, lane, Remote) == c.Owed(v, lane, Remote);
    }
    assert StepView(c, step) == c.view.At(v);
  }

  // ---- Swaps

  /** A swap pays what it promised when the view commits it, and then promises it no more. */
  lemma CommitPaysPromise(s: Option<Swap>, v: Side, lane: nat, p: Side)
    requires s.Some? ==> IsAdding(s.value.state) || Irrevocable(s.value.state)
    ensures PromisedBy(StepSwap(s, CommitStep(v)), v, lane, p) <=
            PromisedBy(s, v, lane, p) + SwapStepEffect(s, CommitStep(v), lane, p)
  {
  }

  lemma OtherStepKeepsPromise(s: Option<Swap>, step: Step, v: Side, lane: nat, p: Side)
    requires step != CommitStep(v)
    requires s.Some? ==> IsAdding(s.value.state) || Irrevocable(s.value.state)
    ensures PromisedBy(StepSwap(s, step), v, lane, p) == PromisedBy(s, v, lane, p)
    ensures PromisedBy(Forgotten(s), v, lane, p) == PromisedBy(s, v, lane, p)
  {
  }

  // ---- A side's balance in its own view

  /** The revocation that must be settled before a view's next commit step can be weighed. */
  function RevokeBefore(v: Side): Step {
    if v.Local? then RcvdRevoke else SendingRevoke
  }

  lemma OwnViewCoversHtlc(h: Htlc, v: Side)
    requires !Dead(h.state) && !RevokeBefore(v).Moves(h.state)
    ensures Adjust(h, v.Other(), v) <= Adjust(Bumped(h, CommitStep(v)), v, v)
  {
  }

  lemma OwnViewCoversSwap(s: Option<Swap>, v: Side, lane: nat)
    requires s.Some? ==> IsAdding(s.value.state) && !RevokeBefore(v).Moves(s.value.state)
    ensures SwapAdjust(s, v.Other(), lane, v) - PromisedBy(s, v.Other(), lane, v)
            <= SwapAdjust(s, v, lane, v) + SwapStepEffect(s, CommitStep(v), lane, v)
  {
  }

  lemma OwnViewCoversTable(htlcs: map<Key, Htlc>, v: Side, lane: nat)
    requires forall k :: k in htlcs ==> !Dead(htlcs[k].state) && !RevokeBefore(v).Moves(htlcs[k].state)
    ensures Sum(AdjustTable(htlcs, v.Other(), lane, v))
            <= Sum(AdjustTable(htlcs, v, lane, v)) + Sum(StepTable(htlcs, CommitStep(v), lane, v))
  {
    hide Sum, StepTable;
    var theirs, ours := AdjustTable(htlcs, v.Other(), lane, v), BumpedTable(htlcs, CommitStep(v), v, lane, v);
    forall k | k in theirs ensures theirs[k] <= ours[k] {
      hide Adjust;
      OwnViewCoversHtlc(htlcs[k], v);
    }
    SumMonotone(theirs, ours);
    BumpedIsBeforePlusDiff(htlcs, CommitStep(v), v, lane, v);
    DiffIsStepTable(htlcs, CommitStep(v), v, lane, v);
  }

  ghost predicate Weighable(c: Channel, v: Side) {
    && (forall k :: k in c.htlcs ==> !RevokeBefore(v).Moves(c.htlcs[k].state))
    && (c.swaps.local.Some? ==>
       IsAdding(c.swaps.local.value.state) && !RevokeBefore(v).Moves(c.swaps.local.value.state))
    && (c.swaps.remote.Some? ==>
       IsAdding(c.swaps.remote.value.state) && !RevokeBefore(v).Moves(c.swaps.remote.value.state))
  }

  /**
    After its view's next commit step a side has at least what the other view owes it now, less what it
    promised there: everything that debits it there has been debited here, and credits come here first.
   */
  lemma OwnViewCovered(c: Channel, base: Balances, v: Side, lane: nat)
    requires c.WellFormed() && Explained(c, base) && Weighable(c, v) && lane < c.Lanes()
    ensures c.Owed(v.Other(), lane, v) - Held(c, v.Other(), lane, v) <= StepOwed(c, CommitStep(v), lane, v)
  {
    hide Sum, AdjustTable, StepTable, SwapAdjust, SwapStepEffect, PromisedBy;
    OwnViewCoversTable(c.htlcs, v, lane);
    OwnViewCoversSwap(c.swaps.local, v, lane);
    OwnViewCoversSwap(c.swaps.remote, v, lane);
    assert c.Owed(v, lane, v) == Accounted(c, base, v, lane, v);
    assert c.Owed(v.Other(), lane, v) == Accounted(c, base, v.Other(), lane, v);
  }

  // ---- Every action keeps every side solvent

  /** An update that puts `h` under `k`, pending at most in view `v`, where it does not take from `v`. */
  lemma PutSolvent(c: Channel, k: Key, h: Htlc)
    requires c.WellFormed() && AllSolvent(c)
    requires k in c.htlcs ==> Irrevocable(c.htlcs[k].state)
    requires h.state == RCVD_REMOVE_HTLC || h.state == SENT_REMOVE_HTLC || h.state == SENT_ADD_HTLC
             || h.state == RCVD_ADD_HTLC
    requires (h.state == SENT_ADD_HTLC || h.state == RCVD_ADD_HTLC) && h.lane < c.Lanes() ==>
      var v := Owner(h.state).Other();
      Held(c, v, h.lane, Owner(h.state)) <= NextOwed(Offered(c, k, h), v, h.lane, Owner(h.state))
    ensures AllSolvent(Offered(c, k, h))
  {
    var d := Offered(c, k, h);
    forall v: Side, lane: nat | lane < c.Lanes() ensures Solvent(d, v, lane) {
      hide Sum, StepTable, Held;
      PutInTable(c.htlcs, k, h, CommitStep(v), lane, v.Other());
      assert Solvent(c, v, lane);
    }
    forall lane: nat | lane < c.Lanes() ensures 0 <= StepOwed(d, RcvdCommit, lane, Local) {
      hide Sum, StepTable, SwapStepEffect;
      PutInTable(c.htlcs, k, h, RcvdCommit, lane, Local);
      assert 0 <= StepOwed(c, RcvdCommit, lane, Local);
    }
    assert forall v: Side, lane: nat, p: Side | lane < c.Lanes() :: d.Owed(v, lane, p) == c.Owed(v, lane, p);
  }

  lemma OfferSolvent(cfg: Config, c: Channel, k: Key, h: Htlc)
    requires c.WellFormed() && AllSolvent(c) && h.state == OfferState(k.owner)
    requires AddResult(cfg, c, k, h, true, k.owner.Local?) == AddOk
    ensures AllSolvent(Offered(c, k, h))
  {
    hide Sum, StepTable, AddResult;
    AcceptedLeavesRoom(cfg, c, k, h, k.owner.Local?);
    PutSolvent(c, k, h);
  }

  lemma SettleSolvent(c: Channel, k: Key, fulfil: bool)
    requires c.WellFormed() && AllSolvent(c) && CanSettle(c, k)
    ensures AllSolvent(Settled(c, k, fulfil))
  {
    PutSolvent(c, k, Settled(c, k, fulfil).htlcs[k]);
  }

  /** The commit step of view `v` leaves the other side solvent there. */
  lemma CommitSolventInView(c: Channel, v: Side, lane: nat)
    requires c.WellFormed() && lane < c.Lanes() && Solvent(c, v, lane)
    ensures Solvent(Change(c, CommitStep(v)), v, lane)
    ensures 0 <= StepOwed(c, CommitStep(v), lane, v.Other())
  {
    hide Sum, StepTable, StepHtlcs, StepHeights, SwapStepEffect, PromisedBy, StepSwap;
    var p := v.Other();
    CommitPaysPromise(c.swaps.local, v, lane, p);
    CommitPaysPromise(c.swaps.remote, v, lane, p);
    CommitClearsTable(c.htlcs, v, lane, p);
    SumZero<Key>(map[]);
    PromiseNonNegative(Change(c, CommitStep(v)), v, lane, p);
  }

  lemma PromiseNonNegative(c: Channel, v: Side, lane: nat, p: Side)
    ensures 0 <= Held(c, v, lane, p)
  {
  }

  /** Any step but the view's own commit step leaves the other side solvent there. */
  lemma OtherStepSolventInView(c: Channel, step: Step, v: Side, lane: nat)
    requires c.WellFormed() && lane < c.Lanes() && Solvent(c, v, lane) && step != CommitStep(v)
    requires Change(c, step).view.At(v) == c.view.At(v)
    ensures Solvent(Change(c, step), v, lane)
  {
    hide Sum, StepTable, StepHtlcs, StepHeights, SwapStepEffect, PromisedBy, StepSwap;
    OtherStepKeepsPromise(c.swaps.local, step, v, lane, v.Other());
    OtherStepKeepsPromise(c.swaps.remote, step, v, lane, v.Other());
    OtherStepGrowsTable(c.htlcs, step, v, lane);
  }

  lemma DoneSolventInView(c: Channel, v: Side, lane: nat)
    requires c.WellFormed() && lane < c.Lanes() && Solvent(c, v, lane)
    ensures Solvent(SwapDone(c), v, lane)
  {
    hide Sum, StepTable;
  }

  /** Sending keeps what we will have in our own view after the next commitment we receive. */
  lemma SendingKeepsOurs(c: Channel, step: Step, lane: nat)
    requires c.WellFormed() && lane < c.Lanes()
    requires step.SendingCommit? || step.SendingRevoke?
    ensures StepOwed(Change(c, step), RcvdCommit, lane, Local) == StepOwed(c, RcvdCommit, lane, Local)
  {
    hide Sum, StepTable, StepHtlcs, StepHeights, SwapEffect;
    SendingKeepsOurTable(c.htlcs, step, lane, Local);
  }

  /** A commitment we receive realises what we were to have, and leaves nothing pending. */
  lemma ReceivingRealisesOurs(c: Channel, lane: nat)
    requires c.WellFormed() && lane < c.Lanes()
    ensures StepOwed(Change(c, RcvdCommit), RcvdCommit, lane, Local) == StepOwed(c, RcvdCommit, lane, Local)
  {
    hide Sum, StepTable, StepHtlcs, StepHeights, SwapEffect;
    CommitClearsTable(c.htlcs, Local, lane, Local);
    SumZero<Key>(map[]);
  }

  /** Sending a commitment: no underflow, and everyone stays solvent. */
  lemma SendCommitSolvent(c: Channel, base: Balances)
    requires c.WellFormed() && Explained(c, base) && Weighable(c, Remote) && AllSolvent(c)
    ensures NoUnderflow(c, SendingCommit) && AllSolvent(Change(c, SendingCommit))
  {
    hide StepOwed, Solvent;
    var d := Change(c, SendingCommit);
    forall lane: nat | lane < c.Lanes() ensures SolventLane(c, d, SendingCommit, lane) {
      SendCommitLane(c, base, lane);
    }
    LanesSolvent(c, SendingCommit);
  }

  /** What a commit step leaves in one lane. */
  ghost predicate SolventLane(c: Channel, d: Channel, step: Step, lane: nat)
    requires c.Sized() && d.Sized() && lane < c.Lanes() == d.Lanes()
  {
    && 0 <= StepOwed(c, step, lane, Local) && 0 <= StepOwed(c, step, lane, Remote)
    && Solvent(d, Local, lane) && Solvent(d, Remote, lane)
    && 0 <= StepOwed(d, RcvdCommit, lane, Local)
  }

  lemma SendCommitLane(c: Channel, base: Balances, lane: nat)
    requires c.WellFormed() && Explained(c, base) && Weighable(c, Remote) && AllSolvent(c) && lane < c.Lanes()
    ensures SolventLane(c, Change(c, SendingCommit), SendingCommit, lane)
  {
    hide StepOwed, Held, NextOwed, Explained, StepView, StepHtlcs, StepHeights;
    assert Solvent(c, Local, lane) && Solvent(c, Remote, lane);
    CommitSolventInView(c, Remote, lane);
    OtherStepSolventInView(c, SendingCommit, Local, lane);
    OwnViewCovered(c, base, Remote, lane);
    SendingKeepsOurs(c, SendingCommit, lane);
    assert 0 <= StepOwed(c, RcvdCommit, lane, Local);
  }

  lemma LanesSolvent(c: Channel, step: Step)
    requires c.WellFormed() && AllSolvent(c) && (step.SendingCommit? || step.RcvdCommit?)
    requires forall lane: nat :: lane < c.Lanes() ==> SolventLane(c, Change(c, step), step, lane)
    ensures NoUnderflow(c, step) && AllSolvent(Change(c, step))
  {
    hide StepOwed, Solvent, StepHtlcs, StepHeights;
    var d := Change(c, step);
    assert d.Sized() && d.Lanes() == c.Lanes();
    forall lane: nat, p: Side | lane < c.Lanes() ensures 0 <= StepOwed(c, step, lane, p) {
      assert SolventLane(c, d, step, lane) && (p == Local || p == Remote);
    }
    forall v: Side, lane: nat | lane < c.Lanes() ensures Solvent(d, v, lane) {
      assert SolventLane(c, d, step, lane) && (v == Local || v == Remote);
    }
    forall lane: nat | lane < c.Lanes() ensures 0 <= StepOwed(d, RcvdCommit, lane, Local) {
      assert SolventLane(c, d, step, lane);
    }
    hide SolventLane;
    BalancesAfterCommit(c, step.Changes());
  }

  /** Receiving a commitment: no underflow, and everyone stays solvent. */
  lemma RecvCommitSolvent(c: Channel)
    requires c.WellFormed() && AllSolvent(c)
    ensures NoUnderflow(c, RcvdCommit) && AllSolvent(Change(c, RcvdCommit))
  {
    hide StepOwed, Solvent;
    var d := Change(c, RcvdCommit);
    forall lane: nat | lane < c.Lanes() ensures SolventLane(c, d, RcvdCommit, lane) {
      RecvCommitLane(c, lane);
    }
    LanesSolvent(c, RcvdCommit);
  }

  lemma RecvCommitLane(c: Channel, lane: nat)
    requires c.WellFormed() && AllSolvent(c) && lane < c.Lanes()
    ensures SolventLane(c, Change(c, RcvdCommit), RcvdCommit, lane)
  {
    hide StepOwed, Held, NextOwed, StepView, StepHtlcs, StepHeights;
    assert Solvent(c, Local, lane) && Solvent(c, Remote, lane);
    CommitSolventInView(c, Local, lane);
    OtherStepSolventInView(c, RcvdCommit, Remote, lane);
    ReceivingRealisesOurs(c, lane);
    assert 0 <= StepOwed(c, RcvdCommit, lane, Local);
  }

  lemma BalancesAfterCommit(c: Channel, v: Side)
    requires c.WellFormed() && AllSolvent(c) && NoUnderflow(c, CommitStep(v))
    ensures forall w: Side, lane: nat, p: Side :: lane < c.Lanes() ==> 0 <= Change(c, CommitStep(v)).Owed(w, lane, p)
  {
    var d := Change(c, CommitStep(v));
    forall w: Side, lane: nat, p: Side | lane < c.Lanes() ensures 0 <= d.Owed(w, lane, p) {
      hide StepOwed, Solvent;
      assert 0 <= c.Owed(w, lane, p);
      assert 0 <= StepOwed(c, CommitStep(v), lane, p);
    }
  }

  lemma DoneKeepsOurs(c: Channel, lane: nat)
    requires c.WellFormed() && lane < c.Lanes()
    ensures StepOwed(SwapDone(c), RcvdCommit, lane, Local) == StepOwed(c, RcvdCommit, lane, Local)
  {
    hide Sum, StepTable;
  }

  lemma RevokeSolventInView(c: Channel, step: Step, v: Side, lane: nat)
    requires c.WellFormed() && lane < c.Lanes() && Solvent(c, v, lane) && (step.RcvdRevoke? || step.SendingRevoke?)
    ensures Change(c, step).WellFormed() && Solvent(SwapDone(Change(c, step)), v, lane)
  {
    RevokeMovesNoBalance(c, step);
    ChangeWellFormed(c, step);
    OtherStepSolventInView(c, step, v, lane);
    hide Solvent, Change;
    DoneSolventInView(Change(c, step), v, lane);
  }

  /** With every lane's own balance covered, a revocation keeps everyone solvent. */
  lemma RevokeSolvent(c: Channel, step: Step)
    requires c.WellFormed() && AllSolvent(c) && (step.RcvdRevoke? || step.SendingRevoke?)
    requires forall lane: nat :: lane < c.Lanes() ==> 0 <= StepOwed(SwapDone(Change(c, step)), RcvdCommit, lane, Local)
    ensures AllSolvent(SwapDone(Change(c, step)))
  {
    var e := SwapDone(Change(c, step));
    RevokeMovesNoBalance(c, step);
    assert e.view == c.view;
    hide Change, SwapDone, Solvent, StepOwed;
    forall v: Side, lane: nat | lane < c.Lanes() ensures Solvent(e, v, lane) {
      assert Solvent(c, v, lane);
      RevokeSolventInView(c, step, v, lane);
    }
    forall w: Side, lane: nat, p: Side | lane < c.Lanes() ensures 0 <= e.Owed(w, lane, p) {
      assert 0 <= c.Owed(w, lane, p);
    }
  }

  /** Sending a revocation keeps everyone solvent. */
  lemma SendRevokeSolvent(c: Channel)
    requires c.WellFormed() && AllSolvent(c)
    ensures AllSolvent(SwapDone(Change(c, SendingRevoke)))
  {
    ChangeWellFormed(c, SendingRevoke);
    forall lane: nat | lane < c.Lanes()
      ensures 0 <= StepOwed(SwapDone(Change(c, SendingRevoke)), RcvdCommit, lane, Local)
    {
      hide StepOwed, Solvent;
      assert 0 <= StepOwed(c, RcvdCommit, lane, Local);
      SendingKeepsOurs(c, SendingRevoke, lane);
      DoneKeepsOurs(Change(c, SendingRevoke), lane);
    }
    hide StepOwed, Solvent, AllSolvent, Change, SwapDone;
    RevokeSolvent(c, SendingRevoke);
  }

  /** Receiving the revocation of our last commitment keeps everyone solvent. */
  lemma RecvRevokeSolvent(c: Channel, base: Balances)
    requires c.WellFormed() && Explained(c, base) && AllSolvent(c)
    requires Weighable(SwapDone(Change(c, RcvdRevoke)), Local)
    ensures AllSolvent(SwapDone(Change(c, RcvdRevoke)))
  {
    var d := Change(c, RcvdRevoke);
    ChangeExplained(c, base, RcvdRevoke);
    DoneExplained(d, BaseAfterStep(c, base, RcvdRevoke));
    var e, base' := SwapDone(d), BaseAfterDone(d, BaseAfterStep(c, base, RcvdRevoke));
    forall lane: nat | lane < c.Lanes() ensures 0 <= StepOwed(e, RcvdCommit, lane, Local) {
      hide StepOwed, Explained, Weighable, Held, NextOwed;
      assert Solvent(c, Remote, lane);
      RevokeSolventInView(c, RcvdRevoke, Remote, lane);
      OwnViewCovered(e, base', Local, lane);
    }
    hide StepOwed, Solvent, AllSolvent, Change, SwapDone;
    RevokeSolvent(c, RcvdRevoke);
  }

  // ---- Swaps that passed the check

  lemma SwapHasRoom(cfg: Config, c: Channel, v: Side, payer: Side, lane: nat, amount: Msat)
    requires c.WellFormed() && lane < c.Lanes() && SwapAffordableIn(cfg, c, v, payer, lane, amount)
    ensures amount <= c.Owed(v, lane, payer) && amount <= NextOwed(c, v, lane, payer)
  {
    hide Sum, StepTable, Gather;
    var pool := Gather(c.htlcs, v, Some(lane));
    PendingIsStep(c.htlcs, v, lane, payer);
    SumNonNegative(RemovingTable(pool, payer));
    var zero := map k | k in AddingTable(pool, payer) :: 0;
    SumZero(zero);
    SumMonotone(AddingTable(pool, payer), zero);
  }

  /** Each payer of the swap can pay its leg in view `v`, now and after the next commit step. */
  ghost predicate LegsCovered(c: Channel, s: Swap, v: Side)
    requires |c.view.local| == |c.view.remote| && s.giveLane < c.Lanes() && s.takeLane < c.Lanes()
  {
    var o := Owner(s.state);
    && s.give <= c.Owed(v, s.giveLane, o) && s.give <= NextOwed(c, v, s.giveLane, o)
    && s.take <= c.Owed(v, s.takeLane, o.Other()) && s.take <= NextOwed(c, v, s.takeLane, o.Other())
  }

  lemma CheckCoversLegs(cfg: Config, c: Channel, s: Swap, v: Side)
    requires c.WellFormed() && SwapCheck(cfg, c.(req := None), s) == SwapOk
    ensures LegsCovered(c, s, v)
  {
    hide Sum, StepTable, SwapAffordableIn;
    SwapHasRoom(cfg, c.(req := None), v, Owner(s.state), s.giveLane, s.give);
    SwapHasRoom(cfg, c.(req := None), v, Owner(s.state).Other(), s.takeLane, s.take);
  }

  function WithSwap(c: Channel, s: Swap): Channel {
    c.(swaps := With(c.swaps, Owner(s.state), Some(s)), req := None)
  }

  lemma SwapSolventInView(c: Channel, s: Swap, v: Side, lane: nat)
    requires c.WellFormed() && lane < c.Lanes() && c.swaps == Pair(None, None)
    requires c.SwapFits(s, Owner(s.state)) && LegsCovered(c, s, v) && Solvent(c, v, lane)
    ensures Solvent(WithSwap(c, s), v, lane)
  {
    hide Sum, StepTable;
  }

  lemma SwapKeepsOurs(c: Channel, s: Swap, lane: nat)
    requires c.WellFormed() && lane < c.Lanes() && c.swaps == Pair(None, None)
    requires c.SwapFits(s, Owner(s.state)) && LegsCovered(c, s, Local)
    requires s.state == SENT_ADD_HTLC || s.state == RCVD_ADD_HTLC
    requires 0 <= StepOwed(c, RcvdCommit, lane, Local)
    ensures 0 <= StepOwed(WithSwap(c, s), RcvdCommit, lane, Local)
  {
    hide Sum, StepTable;
  }

  /** A swap that passed the check keeps everyone solvent, its legs set aside. */
  lemma SwapSolvent(cfg: Config, c: Channel, s: Swap)
    requires c.WellFormed() && AllSolvent(c) && (s.state == SENT_ADD_HTLC || s.state == RCVD_ADD_HTLC)
    requires SwapCheck(cfg, c.(req := None), s) == SwapOk
    ensures WithSwap(c, s).WellFormed() && AllSolvent(WithSwap(c, s))
  {
    var d := WithSwap(c, s);
    CheckCoversLegs(cfg, c, s, Local);
    CheckCoversLegs(cfg, c, s, Remote);
    forall v: Side, lane: nat | lane < c.Lanes() ensures Solvent(d, v, lane) {
      hide Solvent, LegsCovered, SwapAffordable;
      assert Solvent(c, v, lane);
      SwapSolventInView(c, s, v, lane);
    }
    forall lane: nat | lane < c.Lanes() ensures 0 <= StepOwed(d, RcvdCommit, lane, Local) {
      hide StepOwed, LegsCovered, SwapAffordable;
      assert 0 <= StepOwed(c, RcvdCommit, lane, Local);
      SwapKeepsOurs(c, s, lane);
    }
    hide StepOwed, Solvent, SwapAffordable;
    forall v: Side, lane: nat, p: Side | lane < c.Lanes() ensures 0 <= d.Owed(v, lane, p) {
      assert 0 <= c.Owed(v, lane, p);
    }
  }

  // ---- Marks and resting states

  lemma StepKeepsMarked(c: Channel, step: Step)
    requires Marked(c) && c.WellFormed()
    ensures Marked(Change(c, step))
  {
    hide StepView, StepHeights, StepSwap;
  }

  lemma SendCommitRests(c: Channel)
    requires Resting(c, false) && c.WellFormed()
    ensures Resting(Change(c, SendingCommit), true)
  {
    hide StepView, StepHeights;
  }

  lemma RecvRevokeRests(c: Channel)
    requires Resting(c, true) && c.WellFormed()
    ensures Resting(SwapDone(Change(c, RcvdRevoke)), false)
  {
    hide StepView, StepHeights;
  }

  lemma RecvCommitRests(c: Channel, awaiting: bool)
    requires Resting(c, awaiting) && c.WellFormed()
    ensures Resting(SwapDone(Change(Change(c, RcvdCommit), SendingRevoke)), awaiting)
  {
    var d := Change(Change(c, RcvdCommit), SendingRevoke);
    hide StepView, StepHeights;
    forall k | k in d.htlcs ensures Rests(d.htlcs[k].state, awaiting) {
      CommitAndRevokeRest(c.htlcs[k].state, awaiting);
    }
    hide StepHtlcs;
    if c.swaps.local.Some? { CommitAndRevokeRest(c.swaps.local.value.state, awaiting); }
    if c.swaps.remote.Some? { CommitAndRevokeRest(c.swaps.remote.value.state, awaiting); }
  }

  /** One state through a commitment received and the revocation sent for it. */
  lemma CommitAndRevokeRest(s: HtlcState, awaiting: bool)
    requires Rests(s, awaiting)
    ensures var t := SendingRevoke.Bump(RcvdCommit.Bump(s));
            Rests(t, awaiting) && (IsAdding(s) ==> IsAdding(t) || Irrevocable(t))
  {
  }

  // ---- Every run

  lemma OfferKeepsInv(cfg: Config, n: Node, k: Key, h: Htlc)
    requires Inv(n) && Enabled(cfg, n, Offer(k, h))
    ensures Inv(Next(n, Offer(k, h)))
  {
    hide AddResult, AllSolvent, Explained;
    AcceptedLeavesRoom(cfg, n.chan, k, h, k.owner.Local?);
    OfferSolvent(cfg, n.chan, k, h);
    OfferKeepsShape(n.chan, n.awaiting, k, h);
    hide Marked, Resting, Channel.WellFormed;
    NewIsUncommitted(h);
    PutExplained(n.chan, n.base, k, h);
  }

  lemma OfferKeepsShape(c: Channel, awaiting: bool, k: Key, h: Htlc)
    requires c.WellFormed() && Marked(c) && Resting(c, awaiting)
    requires k !in c.htlcs && h.lane < c.Lanes() && h.state == OfferState(k.owner) && !h.fulfilled && !h.failed
    ensures Offered(c, k, h).WellFormed() && Marked(Offered(c, k, h)) && Resting(Offered(c, k, h), awaiting)
  {
  }

  lemma NewIsUncommitted(h: Htlc)
    requires h.state == SENT_ADD_HTLC || h.state == RCVD_ADD_HTLC
    ensures forall v: Side, p: Side :: Adjust(h, v, p) == 0
  {
  }

  lemma SettleKeepsInv(n: Node, k: Key, fulfil: bool)
    requires Inv(n) && CanSettle(n.chan, k)
    ensures Inv(Next(n, Settle(k, fulfil)))
  {
    hide AllSolvent, Explained;
    SettleSolvent(n.chan, k, fulfil);
    PutExplained(n.chan, n.base, k, Settled(n.chan, k, fulfil).htlcs[k]);
  }

  lemma SendCommitKeepsInv(n: Node)
    requires Inv(n) && !n.awaiting
    ensures NoUnderflow(n.chan, SendingCommit) && Inv(Next(n, SendCommit))
  {
    hide AllSolvent, Explained, NoUnderflow, Marked, StepView, StepHtlcs, StepHeights, StepSwap;
    StepKeepsMarked(n.chan, SendingCommit);
    SendCommitRests(n.chan);
    SendCommitSolvent(n.chan, n.base);
    ChangeExplained(n.chan, n.base, SendingCommit);
  }

  lemma RecvRevokeKeepsInv(n: Node)
    requires Inv(n) && n.awaiting
    ensures Inv(Next(n, RecvRevoke))
  {
    hide AllSolvent, Explained, Marked, StepView, StepHtlcs, StepHeights, StepSwap;
    var d := Change(n.chan, RcvdRevoke);
    StepKeepsMarked(n.chan, RcvdRevoke);
    DoneKeepsMarked(d);
    RecvRevokeRests(n.chan);
    RecvRevokeSolvent(n.chan, n.base);
    ChangeExplained(n.chan, n.base, RcvdRevoke);
    DoneExplained(d, BaseAfterStep(n.chan, n.base, RcvdRevoke));
  }

  lemma DoneKeepsMarked(c: Channel)
    requires Marked(c)
    ensures Marked(SwapDone(c))
  {
  }

  /** A commitment received and the revocation that answers it. */
  lemma CommitAndRevokeKeepInv(n: Node)
    requires Inv(n)
    ensures NoUnderflow(n.chan, RcvdCommit) && Inv(Revoked(Committing(n, RcvdCommit), SendingRevoke))
  {
    hide AllSolvent, Explained, NoUnderflow, Marked, Resting, StepView, StepHtlcs, StepHeights, StepSwap;
    RecvCommitSolvent(n.chan);
    ChangeExplained(n.chan, n.base, RcvdCommit);
    StepKeepsMarked(n.chan, RcvdCommit);
    RecvCommitRests(n.chan, n.awaiting);
    var m := Committing(n, RcvdCommit);
    SendRevokeSolvent(m.chan);
    ChangeExplained(m.chan, m.base, SendingRevoke);
    StepKeepsMarked(m.chan, SendingRevoke);
    DoneKeepsMarked(Change(m.chan, SendingRevoke));
    DoneExplained(Change(m.chan, SendingRevoke), BaseAfterStep(m.chan, m.base, SendingRevoke));
  }

  lemma SwapKeepsExplained(c: Channel, base: Balances, s: Swap)
    requires c.WellFormed() && Explained(c, base) && c.swaps == Pair(None, None)
    requires WithSwap(c, s).WellFormed() && (s.state == SENT_ADD_HTLC || s.state == RCVD_ADD_HTLC)
    ensures Explained(WithSwap(c, s), base)
  {
    var d := WithSwap(c, s);
    forall v: Side, lane: nat, p: Side | lane < c.Lanes() ensures d.Owed(v, lane, p) == Accounted(d, base, v, lane, p) {
      hide Sum, AdjustTable;
      assert c.Owed(v, lane, p) == Accounted(c, base, v, lane, p);
    }
  }

  lemma SwapKeepsInv(cfg: Config, n: Node, s: Swap)
    requires Inv(n) && (s.state == SENT_ADD_HTLC || s.state == RCVD_ADD_HTLC)
    requires SwapCheck(cfg, n.chan.(req := None), s) == SwapOk
    ensures Inv(n.(chan := WithSwap(n.chan, s)))
  {
    hide AllSolvent, Explained, SwapAffordable;
    SwapSolvent(cfg, n.chan, s);
    SwapKeepsExplained(n.chan, n.base, s);
  }

  lemma LocalChangesKeepInv(n: Node, req: Option<Swap>, heights: map<HtlcState, nat>)
    requires Inv(n)
    ensures Inv(n.(chan := n.chan.(req := req, heights := heights)))
  {
    var c, d := n.chan, n.chan.(req := req, heights := heights);
    forall v: Side, lane: nat, p: Side | lane < c.Lanes()
      ensures d.Owed(v, lane, p) == Accounted(d, n.base, v, lane, p) && 0 <= d.Owed(v, lane, p)
    {
      hide Sum, StepTable, AdjustTable, SwapAdjust;
      assert c.Owed(v, lane, p) == Accounted(c, n.base, v, lane, p) && 0 <= c.Owed(v, lane, p);
    }
    forall v: Side, lane: nat | lane < c.Lanes() ensures Solvent(d, v, lane) {
      hide Sum, StepTable, SwapStepEffect, PromisedBy;
      assert Solvent(c, v, lane);
    }
    forall lane: nat | lane < c.Lanes() ensures 0 <= StepOwed(d, RcvdCommit, lane, Local) {
      hide Sum, StepTable, SwapStepEffect, PromisedBy;
      assert 0 <= StepOwed(c, RcvdCommit, lane, Local);
    }
  }

  /** Every enabled action keeps the invariant, and a commit step never underflows. */
  lemma ActionKeepsInv(cfg: Config, n: Node, a: Action)
    requires Inv(n) && Enabled(cfg, n, a)
    ensures Inv(Next(n, a))
    ensures a.SendCommit? ==> NoUnderflow(n.chan, SendingCommit)
    ensures a.RecvCommit? ==> NoUnderflow(BeforeCommit(n, a).chan, RcvdCommit)
  {
    hide AddResult, SwapCheck, Inv, NoUnderflow, SomethingMoves;
    match a
    case Offer(k, h) => OfferKeepsInv(cfg, n, k, h);
    case Settle(k, fulfil) => SettleKeepsInv(n, k, fulfil);
    case SendCommit => SendCommitKeepsInv(n);
    case RecvRevoke => RecvRevokeKeepsInv(n);
    case RecvCommit(taken) =>
      if taken.Some? { SwapKeepsInv(cfg, n, taken.value); }
      CommitAndRevokeKeepInv(BeforeCommit(n, a));
    case AcceptSwap(s) => SwapKeepsInv(cfg, n, s);
    case RequestSwap(s) => LocalChangesKeepInv(n, Some(s), n.chan.heights);
    case CancelRequest => LocalChangesKeepInv(n, None, n.chan.heights);
    case UpdateHeight(h) => LocalChangesKeepInv(n, n.chan.req, HeightStarted(n.chan, h).heights);
  }

  lemma InitialInv(n: Node)
    requires Initial(n)
    ensures Inv(n)
  {
    var c := n.chan;
    SumZero<Key>(map[]);
    forall v: Side, lane: nat, p: Side | lane < c.Lanes()
      ensures c.Owed(v, lane, p) == Accounted(c, n.base, v, lane, p) && 0 <= c.Owed(v, lane, p)
    {
      assert AdjustTable(c.htlcs, v, lane, p) == map[];
    }
    forall v: Side, lane: nat | lane < c.Lanes()
      ensures Solvent(c, v, lane) && 0 <= StepOwed(c, RcvdCommit, lane, Local)
    {
      assert StepTable(c.htlcs, CommitStep(v), lane, v.Other()) == map[];
      assert StepTable(c.htlcs, RcvdCommit, lane, Local) == map[];
      assert 0 <= c.Owed(v, lane, v.Other()) && 0 <= c.Owed(Local, lane, Local);
    }
  }

  lemma {:induction false} RunKeepsInv(cfg: Config, ns: seq<Node>, acts: seq<Action>, i: nat)
    requires IsRun(cfg, ns, acts) && i < |ns|
    ensures Inv(ns[i])
    decreases i
  {
    if i == 0 {
      InitialInv(ns[0]);
    } else {
      RunKeepsInv(cfg, ns, acts, i - 1);
      assert IsStep(cfg, ns[i - 1], acts[i - 1], ns[i]);
      ActionKeepsInv(cfg, ns[i - 1], acts[i - 1]);
    }
  }

  /** No run ever reaches the "balance underflow" failure, at a commitment sent or received. */
  lemma NoRunUnderflows(cfg: Config, ns: seq<Node>, acts: seq<Action>, i: nat)
    requires IsRun(cfg, ns, acts) && i < |acts|
    ensures ns[i].chan.Sized()
    ensures acts[i].SendCommit? ==> NoUnderflow(ns[i].chan, SendingCommit)
    ensures acts[i].RecvCommit? ==> NoUnderflow(BeforeCommit(ns[i], acts[i]).chan, RcvdCommit)
    ensures forall v: Side, lane: nat, p: Side :: lane < ns[i].chan.Lanes() ==> 0 <= ns[i].chan.Owed(v, lane, p)
  {
    RunKeepsInv(cfg, ns, acts, i);
    assert IsStep(cfg, ns[i], acts[i], ns[i + 1]);
    ActionKeepsInv(cfg, ns[i], acts[i]);
  }
}
