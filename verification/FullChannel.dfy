/** `struct channel` as the daemon keeps it: one object, updated in place by every operation. */
module FullChannel {
  import opened Sides
  import opened HtlcStates
  import opened Sums
  import opened ChannelState
  import opened Ledger
  import opened Admission
  import opened Runs
  import opened Solvency
  import opened HtlcWalks

  /** The one slot for a swap in flight, as the specification keeps it. */
  function Slot(s: Option<Swap>): Pair<Option<Swap>> {
    if s.None? then Pair(None, None)
    else if Owner(s.value.state).Local? then Pair(s, None)
    else Pair(None, s)
  }

  // ---- change_htlcs, half way

  /** The HTLCs while a step walks over them: those seen have advanced, the dead among them are gone. */
  ghost predicate Half(live: map<Key, Htlc>, done: map<Key, Htlc>, todo: map<Key, Htlc>, step: Step) {
    && (forall k :: k in live ==> k in todo || k in done)
    && (forall k :: k in todo ==> k in live && live[k] == todo[k])
    && (forall k :: k in done ==> (k in live <==> !Dead(step.Bump(done[k].state))))
    && (forall k :: k in done && k in live ==> live[k] == Bumped(done[k], step))
  }

  lemma HalfOn(live: map<Key, Htlc>, done: map<Key, Htlc>, todo: map<Key, Htlc>, step: Step, k: Key)
    requires Half(live, done, todo, step) && k in todo && k !in done
    ensures var h := Bumped(todo[k], step);
            Half(if Dead(h.state) then live - {k} else live[k := h], done[k := todo[k]], todo - {k}, step)
  {
    hide Dead, Step.Bump;
  }

  lemma HalfEnds(live: map<Key, Htlc>, done: map<Key, Htlc>, step: Step)
    requires Half(live, done, map[], step)
    ensures live == StepHtlcs(done, step)
  {
    hide Dead, Step.Bump;
  }

  /** The balances while a step walks over the HTLCs. */
  ghost predicate OwedSoFar(owed: Balances, start: Balances, done: map<Key, Htlc>, step: Step) {
    && |owed| == |start|
    && forall lane: nat, p: Side :: lane < |start| ==>
       owed[lane].At(p) == start[lane].At(p) + Sum(StepTable(done, step, lane, p))
  }

  /** `htlc_incstate` on the balances. */
  function Advanced(owed: Balances, h: Htlc, v: Side): Balances
    requires h.lane < |owed| && h.state < 19
  {
    owed[h.lane := Pair(owed[h.lane].local + AdvanceEffect(h, v, Local),
                        owed[h.lane].remote + AdvanceEffect(h, v, Remote))]
  }

  lemma OwedOn(owed: Balances, start: Balances, done: map<Key, Htlc>, step: Step, k: Key, h: Htlc)
    requires OwedSoFar(owed, start, done, step) && k !in done && h.lane < |start|
    ensures var after := if step.Moves(h.state) then Advanced(owed, h, step.Changes()) else owed;
            OwedSoFar(after, start, done[k := h], step)
  {
    hide Sum, StepTable, AdvanceEffect;
    var owed' := if step.Moves(h.state) then Advanced(owed, h, step.Changes()) else owed;
    forall lane: nat, p: Side | lane < |start|
      ensures owed'[lane].At(p) == start[lane].At(p) + Sum(StepTable(done[k := h], step, lane, p))
    {
      PutInTable(done, k, h, step, lane, p);
    }
  }

  lemma OwedStarts(start: Balances, step: Step)
    ensures OwedSoFar(start, start, map[], step)
  {
    forall lane: nat, p: Side | lane < |start| ensures Sum(StepTable(map[], step, lane, p)) == 0 {
      SumZero(StepTable(map[], step, lane, p));
    }
  }

  lemma OwedSize(owed: Balances, start: Balances, done: map<Key, Htlc>, step: Step)
    requires OwedSoFar(owed, start, done, step)
    ensures |owed| == |start|
  {
  }

  lemma HalfStarts(all: map<Key, Htlc>, step: Step)
    ensures Half(all, map[], all, step)
  {
  }

  lemma HalfHas(live: map<Key, Htlc>, done: map<Key, Htlc>, todo: map<Key, Htlc>, step: Step, k: Key)
    requires Half(live, done, todo, step) && k in todo
    ensures k in live && live[k] == todo[k]
    ensures !step.Moves(todo[k].state) && !Dead(todo[k].state) ==> live[k := todo[k]] == live
  {
  }

  /** `balance_swap`. */
  function Swapped(owed: Balances, s: Swap): (r: Balances)
    requires s.giveLane < |owed| && s.takeLane < |owed|
    ensures |r| == |owed|
    ensures forall lane: nat, p: Side :: lane < |owed| ==> r[lane].At(p) == owed[lane].At(p) + SwapEffect(s, lane, p)
  {
    var o := Owner(s.state);
    var g := owed[s.giveLane := With(owed[s.giveLane], o, owed[s.giveLane].At(o) - s.give)];
    var g' := g[s.giveLane := With(g[s.giveLane], o.Other(), g[s.giveLane].At(o.Other()) + s.give)];
    var t := g'[s.takeLane := With(g'[s.takeLane], o.Other(), g'[s.takeLane].At(o.Other()) - s.take)];
    t[s.takeLane := With(t[s.takeLane], o, t[s.takeLane].At(o) + s.take)]
  }

  /** The heights after the states from `i` on have been advanced, last first. */
  function HeightsFrom(hs: map<HtlcState, nat>, states: seq<HtlcState>, i: nat): map<HtlcState, nat>
    requires i <= |states|
    decreases |states| - i
  {
    if i == |states| then hs
    else
      var later := HeightsFrom(hs, states, i + 1);
      if IsAdding(states[i]) then IncHeight(later, states[i]) else later
  }

  lemma HeightsFromStep(hs: map<HtlcState, nat>, step: Step)
    ensures HeightsFrom(hs, step.Advanced(), 0) == StepHeights(hs, step)
  {
    hide IncHeight;
    var states := step.Advanced();
    assert !IsAdding(states[1]) && !IsAdding(states[3]);
    assert HeightsFrom(hs, states, 4) == hs;
    assert HeightsFrom(hs, states, 3) == hs;
    assert HeightsFrom(hs, states, 2) == IncHeight(hs, states[2]);
    assert HeightsFrom(hs, states, 1) == IncHeight(hs, states[2]);
  }

  // ---- What a step moves

  /** The states that a step finds HTLCs in. */
  function HtlcStatesIn(htlcs: map<Key, Htlc>, step: Step): set<HtlcState> {
    set k | k in htlcs && step.Moves(htlcs[k].state) :: htlcs[k].state
  }

  function SwapStatesIn(swap: Option<Swap>, step: Step): set<HtlcState> {
    if swap.Some? && step.Moves(swap.value.state) then {swap.value.state} else {}
  }

  function HeightStatesIn(hs: map<HtlcState, nat>, step: Step): set<HtlcState> {
    set s | s in hs && IsAdding(s) && step.Moves(s)
  }

  function MovedFrom(c: Channel, step: Step): set<HtlcState> {
    HtlcStatesIn(c.htlcs, step) + SwapStatesIn(c.swaps.local, step) + SwapStatesIn(c.swaps.remote, step)
    + HeightStatesIn(c.heights, step)
  }

  /** The code keeps one swap, whoever owns it. */
  lemma MovedFromIs(c: Channel, swap: Option<Swap>, step: Step)
    requires c.swaps == Slot(swap)
    ensures MovedFrom(c, step) ==
            HtlcStatesIn(c.htlcs, step) + SwapStatesIn(swap, step) + HeightStatesIn(c.heights, step)
  {
    hide HtlcStatesIn, HeightStatesIn, Step.Moves;
  }

  lemma HtlcStatesPut(htlcs: map<Key, Htlc>, step: Step, k: Key, h: Htlc)
    requires k !in htlcs
    ensures HtlcStatesIn(htlcs[k := h], step) ==
            HtlcStatesIn(htlcs, step) + if step.Moves(h.state) then {h.state} else {}
  {
    hide Step.Moves;
    var after := htlcs[k := h];
    forall s: HtlcState | s in HtlcStatesIn(htlcs, step) ensures s in HtlcStatesIn(after, step) {
      var j :| j in htlcs && step.Moves(htlcs[j].state) && htlcs[j].state == s;
      assert after[j] == htlcs[j];
    }
    forall s: HtlcState | s in HtlcStatesIn(after, step)
      ensures s in HtlcStatesIn(htlcs, step) || (step.Moves(h.state) && s == h.state)
    {
      var j :| j in after && step.Moves(after[j].state) && after[j].state == s;
    }
    assert step.Moves(h.state) ==> after[k].state in HtlcStatesIn(after, step);
  }

  lemma NoHtlcStates(step: Step)
    ensures HtlcStatesIn(map[], step) == {}
  {
  }

  /** No height moves into a state that is looked at later. */
  lemma HeightWaits(hs: map<HtlcState, nat>, step: Step, i: nat)
    requires i < 4 && IsAdding(step.Advanced()[i])
    ensures step.Advanced()[i] in HeightsFrom(hs, step.Advanced(), i + 1) <==> step.Advanced()[i] in hs
  {
    var states := step.Advanced();
    assert !IsAdding(states[1]) && !IsAdding(states[3]);
    assert HeightsFrom(hs, states, 3) == hs by { assert HeightsFrom(hs, states, 4) == hs; }
    assert HeightsFrom(hs, states, 1) == IncHeight(hs, states[2]) by {
      assert HeightsFrom(hs, states, 2) == IncHeight(hs, states[2]);
    }
  }

  lemma HeightStatesAre(hs: map<HtlcState, nat>, step: Step)
    ensures var states := step.Advanced();
            HeightStatesIn(hs, step) == set j | 0 <= j < 4 && IsAdding(states[j]) && states[j] in hs :: states[j]
  {
    var states := step.Advanced();
    forall s: HtlcState | s in HeightStatesIn(hs, step) ensures exists j :: 0 <= j < 4 && states[j] == s {
      step.MovesIsAdvanced(s);
    }
    forall j | 0 <= j < 4 ensures step.Moves(states[j]) {
      step.MovesIsAdvanced(states[j]);
    }
  }

  lemma HeightsMove(hs: map<HtlcState, nat>, step: Step)
    ensures StepHeights(hs, step) != hs <==> HeightStatesIn(hs, step) != {}
  {
    var states := step.Advanced();
    HeightStatesAre(hs, step);
    assert !IsAdding(states[1]) && !IsAdding(states[3]);
    if states[2] in hs {
      assert states[2] !in StepHeights(hs, step) && states[2] in HeightStatesIn(hs, step);
    } else if states[0] in hs {
      assert states[0] !in StepHeights(hs, step) && states[0] in HeightStatesIn(hs, step);
    } else {
      assert StepHeights(hs, step) == hs;
    }
  }

  lemma SomethingMovesIs(c: Channel, step: Step)
    ensures SomethingMoves(c, step) <==> MovedFrom(c, step) != {}
  {
    HeightsMove(c.heights, step);
    hide StepHeights, HeightStatesIn, Step.Moves;
    if k :| k in c.htlcs && step.Moves(c.htlcs[k].state) {
      assert c.htlcs[k].state in HtlcStatesIn(c.htlcs, step);
    }
    if s :| s in HtlcStatesIn(c.htlcs, step) {
      var k :| k in c.htlcs && step.Moves(c.htlcs[k].state) && c.htlcs[k].state == s;
    }
    if s :| s in HeightStatesIn(c.heights, step) {
      assert s in MovedFrom(c, step);
    }
  }

  /** Leaving `s` changes whether it is pending in view `v`. */
  predicate Queues(s: HtlcState, v: Side) {
    s < 19 && Pending(s, v) != Pending(s + 1, v)
  }

  /** What a revocation queues: something it moves becomes pending in the view. */
  ghost predicate QueuedBy(c: Channel, step: Step) {
    exists s :: s in MovedFrom(c, step) && Queues(s, step.Changes())
  }

  /**
    One item under a revocation: a commitment to the view will find it if it did before or the revocation queues it.
   */
  lemma OneQueued(s: HtlcState, step: Step)
    requires step.RcvdRevoke? || step.SendingRevoke?
    ensures var commit := CommitStep(step.Changes());
            && (commit.Moves(step.Bump(s)) <==> commit.Moves(s) || (step.Moves(s) && Queues(s, step.Changes())))
            && (commit.Moves(step.Bump(s)) ==> !Dead(step.Bump(s)))
  {
  }

  lemma HtlcsQueued(htlcs: map<Key, Htlc>, step: Step)
    requires step.RcvdRevoke? || step.SendingRevoke?
    ensures var commit := CommitStep(step.Changes());
            (exists k :: k in StepHtlcs(htlcs, step) && commit.Moves(StepHtlcs(htlcs, step)[k].state)) <==>
            || (exists k :: k in htlcs && commit.Moves(htlcs[k].state))
            || (exists s :: s in HtlcStatesIn(htlcs, step) && Queues(s, step.Changes()))
  {
    hide Step.Moves, Step.Bump, Queues, Dead;
    var commit, after := CommitStep(step.Changes()), StepHtlcs(htlcs, step);
    forall k | k in htlcs
      ensures k in after && commit.Moves(after[k].state) <==>
              commit.Moves(htlcs[k].state) || (step.Moves(htlcs[k].state) && Queues(htlcs[k].state, step.Changes()))
    {
      OneQueued(htlcs[k].state, step);
    }
    if s :| s in HtlcStatesIn(htlcs, step) && Queues(s, step.Changes()) {
      var k :| k in htlcs && step.Moves(htlcs[k].state) && htlcs[k].state == s;
      assert k in after && commit.Moves(after[k].state);
    }
    if k :| k in htlcs && commit.Moves(htlcs[k].state) {
      assert k in after && commit.Moves(after[k].state);
    }
    if k :| k in after && commit.Moves(after[k].state) {
      assert k in htlcs;
      if !commit.Moves(htlcs[k].state) { assert htlcs[k].state in HtlcStatesIn(htlcs, step); }
    }
  }

  lemma HeightsQueued(hs: map<HtlcState, nat>, step: Step)
    requires step.RcvdRevoke? || step.SendingRevoke?
    ensures var commit := CommitStep(step.Changes());
            HeightStatesIn(StepHeights(hs, step), commit) != {} <==>
            HeightStatesIn(hs, commit) != {} || exists s :: s in HeightStatesIn(hs, step) && Queues(s, step.Changes())
  {
    var v := step.Changes();
    var own: HtlcState, other: HtlcState := if v.Local? then 2 else 12, if v.Local? then 10 else 0;
    var after := StepHeights(hs, step);
    assert own in after <==> own in hs || own - 1 in hs;
    assert other in after <==> other in hs;
    forall m: map<HtlcState, nat> ensures HeightStatesIn(m, CommitStep(v)) != {} <==> own in m || other in m {
      if own in m { assert own in HeightStatesIn(m, CommitStep(v)); }
      if other in m { assert other in HeightStatesIn(m, CommitStep(v)); }
    }
    if own - 1 in hs { assert own - 1 in HeightStatesIn(hs, step) && Queues(own - 1, v); }
    forall s | s in HeightStatesIn(hs, step) && Queues(s, v) ensures s == own - 1 {
    }
  }

  /** After a revocation a commitment to the view is due exactly if it was before or the revocation says so. */
  lemma PendingMeansDue(c: Channel, step: Step)
    requires c.Sized() && (step.RcvdRevoke? || step.SendingRevoke?)
    ensures SomethingMoves(Change(c, step), CommitStep(step.Changes())) <==>
            SomethingMoves(c, CommitStep(step.Changes())) || QueuedBy(c, step)
  {
    var commit := CommitStep(step.Changes());
    HtlcsQueued(c.htlcs, step);
    HeightsQueued(c.heights, step);
    HeightsMove(c.heights, commit);
    HeightsMove(StepHeights(c.heights, step), commit);
    SwapQueued(c.swaps.local, step);
    SwapQueued(c.swaps.remote, step);
    hide StepHeights, HeightStatesIn, HtlcStatesIn, SwapStatesIn, Step.Moves, Queues, StepView, StepHtlcs, StepSwap;
    QueuedByOne(c, step);
  }

  lemma SwapQueued(swap: Option<Swap>, step: Step)
    requires step.RcvdRevoke? || step.SendingRevoke?
    ensures var after, commit := StepSwap(swap, step), CommitStep(step.Changes());
            (after.Some? && commit.Moves(after.value.state)) <==>
            || (swap.Some? && commit.Moves(swap.value.state))
            || (exists s :: s in SwapStatesIn(swap, step) && Queues(s, step.Changes()))
  {
    if swap.Some? {
      OneQueued(swap.value.state, step);
      assert step.Moves(swap.value.state) ==> swap.value.state in SwapStatesIn(swap, step);
    }
  }

  lemma QueuedByOne(c: Channel, step: Step)
    ensures QueuedBy(c, step) <==>
            || (exists s :: s in HtlcStatesIn(c.htlcs, step) && Queues(s, step.Changes()))
            || (exists s :: s in SwapStatesIn(c.swaps.local, step) && Queues(s, step.Changes()))
            || (exists s :: s in SwapStatesIn(c.swaps.remote, step) && Queues(s, step.Changes()))
            || (exists s :: s in HeightStatesIn(c.heights, step) && Queues(s, step.Changes()))
  {
    hide HeightStatesIn, HtlcStatesIn, SwapStatesIn, Queues;
    assert forall s :: s in MovedFrom(c, step) <==>
             || s in HtlcStatesIn(c.htlcs, step) || s in SwapStatesIn(c.swaps.local, step)
             || s in SwapStatesIn(c.swaps.remote, step) || s in HeightStatesIn(c.heights, step);
  }

  /** The balances after both parts of a step are the step's. */
  lemma OwedIsStep(c: Channel, step: Step, owed: Balances, after: Balances)
    requires c.Sized() && OwedSoFar(owed, c.view.At(step.Changes()), c.htlcs, step) && |after| == |owed|
    requires forall lane: nat, p: Side :: lane < |owed| ==>
               after[lane].At(p) == owed[lane].At(p) + SwapStepEffect(c.swaps.local, step, lane, p)
                 + SwapStepEffect(c.swaps.remote, step, lane, p)
    ensures |after| == c.Lanes()
    ensures forall lane: nat, p: Side :: lane < c.Lanes() ==> after[lane].At(p) == StepOwed(c, step, lane, p)
    ensures after == StepView(c, step)
  {
    hide Sum, StepTable, SwapStepEffect;
    forall lane: nat, p: Side | lane < c.Lanes() ensures after[lane].At(p) == StepOwed(c, step, lane, p) {
      assert owed[lane].At(p) == c.Owed(step.Changes(), lane, p) + Sum(StepTable(c.htlcs, step, lane, p));
    }
    forall lane: nat | lane < c.Lanes() ensures after[lane] == StepView(c, step)[lane] {
      assert after[lane].At(Local) == StepOwed(c, step, lane, Local);
      assert after[lane].At(Remote) == StepOwed(c, step, lane, Remote);
    }
  }

  ghost predicate NonNegative(view: Pair<Balances>) {
    forall v: Side, lane: nat, p: Side :: lane < |view.At(v)| ==> 0 <= view.At(v)[lane].At(p)
  }

  lemma NonNegativeInBoth(view: Pair<Balances>)
    ensures NonNegative(view) <==>
            && (forall lane: nat, p: Side :: lane < |view.local| ==> 0 <= view.local[lane].At(p))
            && (forall lane: nat, p: Side :: lane < |view.remote| ==> 0 <= view.remote[lane].At(p))
  {
    if NonNegative(view) {
      forall lane: nat, p: Side | lane < |view.local| ensures 0 <= view.local[lane].At(p) {
        assert 0 <= view.At(Local)[lane].At(p);
      }
      forall lane: nat, p: Side | lane < |view.remote| ensures 0 <= view.remote[lane].At(p) {
        assert 0 <= view.At(Remote)[lane].At(p);
      }
    }
  }

  lemma NoUnderflowStays(c: Channel, step: Step)
    requires c.Sized() && NoUnderflow(c, step) && NonNegative(c.view)
    ensures NonNegative(Change(c, step).view)
  {
    hide StepOwed, StepHtlcs, StepHeights;
    forall v: Side, lane: nat, p: Side | lane < c.Lanes() ensures 0 <= Change(c, step).view.At(v)[lane].At(p) {
      if v == step.Changes() {
        assert 0 <= StepOwed(c, step, lane, p);
      } else {
        assert 0 <= c.view.At(v)[lane].At(p);
      }
    }
  }

  lemma RevokeCannotUnderflow(c: Channel, step: Step)
    requires c.Sized() && (step.RcvdRevoke? || step.SendingRevoke?) && NonNegative(c.view)
    ensures NoUnderflow(c, step)
  {
    hide StepOwed, StepHtlcs, StepHeights;
    RevokeMovesNoBalance(c, step);
    var v := step.Changes();
    forall lane: nat, p: Side | lane < c.Lanes() ensures 0 <= StepOwed(c, step, lane, p) {
      assert Change(c, step).view.At(v)[lane].At(p) == StepOwed(c, step, lane, p);
      assert 0 <= c.view.At(v)[lane].At(p);
    }
  }

  datatype RemoveErr = RemoveOk | NoSuchId | AlreadyFulfilled | BadPreimage | HtlcUncommitted | HtlcNotIrrevocable

  lemma AcceptedFits(cfg: Config, c: Channel, k: Key, h: Htlc, enforce: bool, errImmediate: bool)
    requires c.WellFormed() && AddResult(cfg, c, k, h, enforce, errImmediate) == AddOk && Owner(h.state) == k.owner
             && !Dead(h.state)
    ensures k !in c.htlcs && Offered(c, k, h).WellFormed()
  {
    hide NumOther, PoolWith, Dust, Affordable, Predicted, InFlightFits, InFlight;
  }

  // ---- channel_force_htlcs

  lemma MarkedFits(cfg: Config, c: Channel, k: Key, h: Htlc)
    requires c.WellFormed() && AddResult(cfg, c, k, Unmarked(h), false, false) == AddOk && Owner(h.state) == k.owner
             && !Dead(h.state)
    ensures k !in c.htlcs && h.lane < c.Lanes() && Offered(c, k, h).WellFormed()
  {
    hide AddResult;
    AcceptedFits(cfg, c, k, Unmarked(h), false, false);
    assert k in Offered(c, k, Unmarked(h)).htlcs;
    forall j | j in Offered(c, k, h).htlcs
      ensures var g := Offered(c, k, h).htlcs[j]; g.lane < c.Lanes() && Owner(g.state) == j.owner && !Dead(g.state)
    {
      assert j in Offered(c, k, Unmarked(h)).htlcs;
    }
  }

  /** An HTLC that a view has dropped was fulfilled or failed. */
  predicate Adjustable(h: Htlc, v: Side) {
    WasCommitted(h.state, v) && !Committed(h.state, v) ==> h.failed || h.fulfilled
  }

  function AdjustedIn(owed: Balances, h: Htlc, v: Side): Balances
    requires h.lane < |owed|
  {
    owed[h.lane := Pair(owed[h.lane].local + Adjust(h, v, Local), owed[h.lane].remote + Adjust(h, v, Remote))]
  }

  function Adjusted(owed: Pair<Balances>, h: Htlc): Pair<Balances>
    requires h.lane < |owed.local| == |owed.remote|
  {
    Pair(AdjustedIn(owed.local, h, Local), AdjustedIn(owed.remote, h, Remote))
  }

  /** An HTLC as the database keeps it. */
  datatype Saved = Saved(id: nat, h: Htlc) {
    function Key(): Key {
      ChannelState.Key.Key(Owner(h.state), id)
    }
  }

  /** As `add_htlc` makes it, before its fate is filled in. */
  function Unmarked(h: Htlc): Htlc {
    h.(fulfilled := false, failed := false)
  }

  function SavedMap(list: seq<Saved>): map<Key, Htlc> {
    if list == [] then map[] else SavedMap(list[..|list| - 1])[list[|list| - 1].Key() := list[|list| - 1].h]
  }

  lemma NothingSaved()
    ensures SavedMap([]) == map[]
  {
  }

  lemma SavedOneMore(list: seq<Saved>, i: nat)
    requires i < |list|
    ensures SavedMap(list[..i + 1]) == SavedMap(list[..i])[list[i].Key() := list[i].h]
  {
    assert list[..i + 1][..i] == list[..i];
  }

  /** `add_htlc`, limits not enforced, lets every one of them back in. */
  ghost predicate Readmitted(cfg: Config, c: Channel, list: seq<Saved>)
    requires c.Sized()
  {
    forall i: nat :: i < |list| ==>
      AddResult(cfg, c.(htlcs := SavedMap(list[..i])), list[i].Key(), Unmarked(list[i].h), false, false) == AddOk
  }

  /** The balances that the saved ones and the states of the HTLCs and the swap account for. */
  ghost function RestoredView(c: Channel, htlcs: map<Key, Htlc>): Pair<Balances>
    requires c.Sized()
  {
    var d := c.(htlcs := htlcs);
    Pair(seq(c.Lanes(), lane requires 0 <= lane < c.Lanes() =>
           Pair(Accounted(d, c.view.local, Local, lane, Local), Accounted(d, c.view.local, Local, lane, Remote))),
         seq(c.Lanes(), lane requires 0 <= lane < c.Lanes() =>
           Pair(Accounted(d, c.view.remote, Remote, lane, Local), Accounted(d, c.view.remote, Remote, lane, Remote))))
  }

  ghost predicate AdjustedSoFar(owed: Pair<Balances>, start: Pair<Balances>, htlcs: map<Key, Htlc>) {
    && |owed.local| == |start.local| && |owed.remote| == |start.remote|
    && forall v: Side, lane: nat, p: Side :: lane < |start.At(v)| ==>
         owed.At(v)[lane].At(p) == start.At(v)[lane].At(p) + Sum(AdjustTable(htlcs, v, lane, p))
  }

  lemma AdjustedSize(owed: Pair<Balances>, start: Pair<Balances>, htlcs: map<Key, Htlc>)
    requires AdjustedSoFar(owed, start, htlcs)
    ensures |owed.local| == |start.local| && |owed.remote| == |start.remote|
  {
  }

  /** The restored balances start from the saved ones, whatever HTLCs are already back. */
  lemma RestoredIgnoresHtlcs(c: Channel, htlcs: map<Key, Htlc>)
    requires c.Sized()
    ensures RestoredView(c.(htlcs := htlcs), htlcs) == RestoredView(c, htlcs)
  {
  }

  lemma AdjustStarts(start: Pair<Balances>)
    ensures AdjustedSoFar(start, start, map[])
  {
    forall v: Side, lane: nat, p: Side | lane < |start.At(v)| ensures Sum(AdjustTable(map[], v, lane, p)) == 0 {
      SumZero(AdjustTable(map[], v, lane, p));
    }
  }

  lemma AdjustPut(htlcs: map<Key, Htlc>, k: Key, h: Htlc, v: Side, lane: nat, p: Side)
    requires k !in htlcs
    ensures Sum(AdjustTable(htlcs[k := h], v, lane, p)) ==
            Sum(AdjustTable(htlcs, v, lane, p)) + if h.lane == lane then Adjust(h, v, p) else 0
  {
    hide Sum, Adjust;
    var before, after := AdjustTable(htlcs, v, lane, p), AdjustTable(htlcs[k := h], v, lane, p);
    if h.lane == lane { SumPut(before, k, Adjust(h, v, p)); }
    assert after == if h.lane == lane then before[k := Adjust(h, v, p)] else before;
  }

  lemma AdjustOn(owed: Pair<Balances>, start: Pair<Balances>, htlcs: map<Key, Htlc>, k: Key, h: Htlc)
    requires AdjustedSoFar(owed, start, htlcs) && k !in htlcs && h.lane < |start.local| == |start.remote|
    ensures AdjustedSoFar(Adjusted(owed, h), start, htlcs[k := h])
  {
    hide Sum, AdjustTable, Adjust;
    var owed' := Adjusted(owed, h);
    forall v: Side, lane: nat, p: Side | lane < |start.At(v)|
      ensures owed'.At(v)[lane].At(p) == start.At(v)[lane].At(p) + Sum(AdjustTable(htlcs[k := h], v, lane, p))
    {
      AdjustPut(htlcs, k, h, v, lane, p);
      assert owed.At(v)[lane].At(p) == start.At(v)[lane].At(p) + Sum(AdjustTable(htlcs, v, lane, p));
    }
  }

  /** The swap in flight moves the views that committed it. */
  function SwapRestored(owed: Balances, s: Option<Swap>, v: Side): Balances
    requires s.Some? ==> s.value.giveLane < |owed| && s.value.takeLane < |owed|
  {
    if s.Some? && Committed(s.value.state, v) then Swapped(owed, s.value) else owed
  }

  lemma RestoredInView(c: Channel, s: Option<Swap>, owed: Pair<Balances>, htlcs: map<Key, Htlc>, v: Side)
    requires c.WellFormed() && c.swaps == Slot(s) && AdjustedSoFar(owed, c.view, htlcs)
    ensures SwapRestored(owed.At(v), s, v) == RestoredView(c, htlcs).At(v)
  {
    hide Sum, AdjustTable, SwapEffect;
    var ours, r := SwapRestored(owed.At(v), s, v), RestoredView(c, htlcs).At(v);
    forall lane: nat | lane < c.Lanes() ensures ours[lane] == r[lane] {
      assert owed.At(v)[lane].At(Local) == c.view.At(v)[lane].At(Local) + Sum(AdjustTable(htlcs, v, lane, Local));
      assert owed.At(v)[lane].At(Remote) == c.view.At(v)[lane].At(Remote) + Sum(AdjustTable(htlcs, v, lane, Remote));
      assert ours[lane].At(Local) == r[lane].At(Local);
      assert ours[lane].At(Remote) == r[lane].At(Remote);
    }
  }

  class LiveChannel {
    var htlcs: map<Key, Htlc>
    var view: Pair<Balances>
    var swap: Option<Swap>
    var req: Option<Swap>
    var heights: map<HtlcState, nat>
    const opener: Side

    ghost function State(): Channel
      reads this
    {
      Channel(htlcs, view, Slot(swap), req, heights, opener)
    }

    /** Amounts are unsigned: no balance is ever kept negative. */
    ghost predicate Valid()
      reads this
    {
      State().WellFormed() && NonNegative(view)
    }

    /** `new_full_channel`: nothing in flight, and both views start from the same balances. */
    constructor (balances: Balances, height: nat, opener: Side)
      requires balances != []
      requires forall lane: nat, p: Side :: lane < |balances| ==> 0 <= balances[lane].At(p)
      ensures Valid() && Initial(Node(State(), false, balances))
    {
      htlcs := map[];
      view := Pair(balances, balances);
      swap, req := None, None;
      heights := map[if opener.Local? then SENT_ADD_ACK_REVOCATION else RCVD_ADD_ACK_REVOCATION := height];
      this.opener := opener;
    }

    /** `gather_lane_htlcs`. */
    method GatherLane(v: Side, lane: Option<nat>) returns (pool: Pool, others: nat)
      ensures pool == Gather(htlcs, v, lane) && others == NumOther(htlcs, v, lane)
    {
      hide Gather, NumOther, Walk, Committed, Pending;
      pool, others := Pool(map[], map[], map[]), 0;
      var todo := htlcs;
      ghost var done: map<Key, Htlc> := map[];
      WalkStarts(htlcs);
      NothingGathered(v, lane);
      while todo != map[]
        invariant Walk(htlcs, done, todo) && pool == Gather(done, v, lane) && others == NumOther(done, v, lane)
        decreases |todo|
      {
        var k :| k in todo;
        var h := todo[k];
        WalkOn(htlcs, done, todo, k);
        CommittedPut(done, k, h, v, lane);
        RemovingPut(done, k, h, v, lane);
        AddingPut(done, k, h, v, lane);
        NumOtherPut(done, k, h, v, lane);
        done, todo := done[k := h], todo - {k};
        if !InLane(h, lane) { continue; }
        if Committed(h.state, v) {
          pool := pool.(committed := pool.committed[k := h]);
          if Pending(h.state, v) {
            pool := pool.(removing := pool.removing[k := h]);
          } else if Owner(h.state) != v {
            others := others + 1;
          }
        } else if Pending(h.state, v) {
          pool := pool.(adding := pool.adding[k := h]);
          if Owner(h.state) != v {
            others := others + 1;
          }
        }
      }
      WalkEnds(htlcs, done);
    }

    /** `swap_promised`: in flight, or asked for. */
    method SwapPromised(v: Side, lane: nat, payer: Side) returns (total: nat)
      ensures total == Promised(State(), v, lane, payer)
    {
      total := 0;
      var swaps := [swap, req];
      for i := 0 to 2
        invariant total == (if i > 0 then PromisedBy(swap, v, lane, payer) else 0)
                  + (if i > 1 then PromisedBy(req, v, lane, payer) else 0)
      {
        var s := swaps[i];
        if s.None? || Committed(s.value.state, v) { continue; }
        if Owner(s.value.state) == payer && s.value.giveLane == lane {
          total := total + s.value.give;
        }
        if Owner(s.value.state) != payer && s.value.takeLane == lane {
          total := total + s.value.take;
        }
      }
    }

    /** The balance of `p` in `lane` once what is pending in view `v` is in. */
    method Predict(v: Side, lane: nat, pool: Pool, p: Side) returns (balance: int)
      requires Valid() && lane < State().Lanes()
      ensures balance == Predicted(State(), v, lane, pool, p)
    {
      hide RemovingTable, AddingTable, Promised, Sum;
      balance := RemovedFrom(view.At(v)[lane].At(p), pool, p);
      balance := AddedTo(balance, pool, p);
      var promised := SwapPromised(v, lane, p);
      balance := balance - promised;
    }

    /** `get_room_above_reserve`. */
    method RoomAboveReserve(cfg: Config, v: Side, pool: Pool, p: Side) returns (room: Option<int>)
      requires Valid()
      ensures room == Room(cfg, State(), v, pool, p)
    {
      if view.At(v)[0].At(p) <= 0 { return None; }
      var balance := Predict(v, 0, pool, p);
      if balance < 0 || balance < cfg.reserve.At(p) { return None; }
      return Some(balance - cfg.reserve.At(p));
    }

    /** The fee and reserve checks of `add_htlc`. */
    method CanAfford(cfg: Config, sender: Side, pool: Pool) returns (ok: bool)
      requires Valid()
      ensures ok == Affordable(cfg, State(), sender, pool)
    {
      hide Room, Untrimmed, Valid;
      var v := sender.Other();
      var untrimmed := NumUntrimmedIn(cfg, pool, v);
      var fee := cfg.baseFee(v, Natural(untrimmed));
      var room := RoomAboveReserve(cfg, v, pool, sender);
      if room.None? { return false; }
      var left := room.value;
      if opener == sender {
        if cfg.anchors {
          if left < ANCHORS_MSAT { return false; }
          left := left - ANCHORS_MSAT;
        }
        if left < fee { return false; }
        if sender.Local? {
          var ours := NumUntrimmedIn(cfg, pool, Local);
          if left < cfg.headroomFee(Natural(ours) + 1) { return false; }
        }
      }
      if sender.Local? {
        var openerRoom := RoomAboveReserve(cfg, v, pool, opener);
        if openerRoom.None? { return false; }
        left := openerRoom.value;
        if cfg.anchors && opener != sender {
          if left < ANCHORS_MSAT { return false; }
          left := left - ANCHORS_MSAT;
        }
        var n := NumUntrimmedIn(cfg, pool, opener);
        if left < cfg.baseFee(opener, Natural(n)) { return false; }
        n := NumUntrimmedIn(cfg, pool, opener.Other());
        if left < cfg.baseFee(opener.Other(), Natural(n)) { return false; }
      }
      return true;
    }
  
    /** The HTLCs of `change_htlcs`, and what they do to the changed view's balances. */
    method AdvanceHtlcs(step: Step) returns (owed: Balances, moved: set<HtlcState>)
      requires Valid()
      modifies this`htlcs
      ensures htlcs == StepHtlcs(old(htlcs), step)
      ensures OwedSoFar(owed, view.At(step.Changes()), old(htlcs), step)
      ensures moved == HtlcStatesIn(old(htlcs), step)
    {
      hide HtlcStatesIn, OwedSoFar, Half, Walk, Dead, Owner, StepHtlcs, AdvanceEffect;
      var v := step.Changes();
      owed, moved := view.At(v), {};
      NoHtlcStates(step);
      ghost var all := htlcs;
      var todo := htlcs;
      ghost var done: map<Key, Htlc> := map[];
      WalkStarts(all);
      HalfStarts(all, step);
      OwedStarts(view.At(v), step);
      assert forall k :: k in all ==> all[k].lane < |view.At(v)|;
      OwedSize(owed, view.At(v), done, step);
      while todo != map[]
        invariant Walk(all, done, todo) && Half(htlcs, done, todo, step) && OwedSoFar(owed, view.At(v), done, step)
        invariant |owed| == |view.At(v)|
        invariant moved == HtlcStatesIn(done, step)
        decreases |todo|
      {
        var k :| k in todo;
        var h := todo[k];
        WalkOn(all, done, todo, k);
        HalfOn(htlcs, done, todo, step, k);
        OwedOn(owed, view.At(v), done, step, k, h);
        HalfHas(htlcs, done, todo, step, k);
        HtlcStatesPut(done, step, k, h);
        if step.Moves(h.state) {
          owed := AdvanceOne(owed, h, v);
          moved := moved + {h.state};
          var h' := h.(state := h.state + 1);
          if Dead(h'.state) {
            htlcs := htlcs - {k};
          } else {
            htlcs := htlcs[k := h'];
          }
        }
        done, todo := done[k := h], todo - {k};
        OwedSize(owed, view.At(v), done, step);
      }
      WalkEnds(all, done);
      HalfEnds(htlcs, done, step);
    }

    /** `htlc_incstate` on the balances of the HTLC's lane. */
    static method AdvanceOne(owed: Balances, h: Htlc, v: Side) returns (after: Balances)
      requires h.lane < |owed| && h.state < 19
      ensures after == Advanced(owed, h, v)
    {
      var o := owed[h.lane];
      if !Committed(h.state, v) && Committed(h.state + 1, v) {
        after := owed[h.lane := Pair(o.local + AddEffect(h, Local), o.remote + AddEffect(h, Remote))];
      } else if Committed(h.state, v) && !Committed(h.state + 1, v) {
        after := owed[h.lane := Pair(o.local + RemoveEffect(h, Local), o.remote + RemoveEffect(h, Remote))];
      } else {
        after := owed;
      }
    }
  
    /** The swap of `change_htlcs`: once a view commits it, both its legs move there. */
    method AdvanceSwap(step: Step, owed: Balances) returns (after: Balances, moved: set<HtlcState>)
      requires swap.Some? ==> swap.value.giveLane < |owed| && swap.value.takeLane < |owed|
      modifies this`swap
      ensures Slot(swap) == Pair(StepSwap(old(Slot(swap)).local, step), StepSwap(old(Slot(swap)).remote, step))
      ensures |after| == |owed|
      ensures forall lane: nat, p: Side :: lane < |owed| ==>
                after[lane].At(p) == owed[lane].At(p) + SwapStepEffect(old(Slot(swap)).local, step, lane, p)
                                     + SwapStepEffect(old(Slot(swap)).remote, step, lane, p)
      ensures moved == SwapStatesIn(old(swap), step)
    {
      hide SwapEffect;
      after, moved := owed, {};
      if swap.Some? && step.Moves(swap.value.state) {
        var s := swap.value;
        var v := step.Changes();
        swap := Some(s.(state := s.state + 1));
        if !Committed(s.state, v) && Committed(s.state + 1, v) {
          after := Swapped(owed, s);
        }
        moved := {s.state};
      }
    }

    /** The heights of `change_htlcs`: last state first, so that none moves twice. */
    method AdvanceHeights(step: Step) returns (moved: set<HtlcState>)
      modifies this`heights
      ensures heights == StepHeights(old(heights), step)
      ensures moved == HeightStatesIn(old(heights), step)
    {
      hide StepHeights, IncHeight, HeightStatesIn;
      moved := {};
      var states := step.Advanced();
      for i := |states| downto 0
        invariant heights == HeightsFrom(old(heights), states, i)
        invariant moved == set j | i <= j < 4 && IsAdding(states[j]) && states[j] in old(heights) :: states[j]
      {
        if IsAdding(states[i]) {
          HeightWaits(old(heights), step, i);
          if states[i] in heights {
            moved := moved + {states[i]};
          }
          heights := IncHeight(heights, states[i]);
        }
      }
      HeightsFromStep(old(heights), step);
      HeightStatesAre(old(heights), step);
    }

    /** `balance_ok` on every balance. */
    static method BalancesOk(owed: Balances) returns (ok: bool)
      ensures ok <==> forall lane: nat, p: Side :: lane < |owed| ==> 0 <= owed[lane].At(p)
    {
      for lane := 0 to |owed|
        invariant forall l: nat, p: Side :: l < lane ==> 0 <= owed[l].At(p)
      {
        if owed[lane].local < 0 {
          assert owed[lane].At(Local) < 0;
          return false;
        }
        if owed[lane].remote < 0 {
          assert owed[lane].At(Remote) < 0;
          return false;
        }
      }
      return true;
    }

    /**
      `change_htlcs`.  Not ok is the "balance underflow" failure, which ends the daemon.  `moved` holds the states
      that something left, from which the changed flags are read.
     */
    method ChangeHtlcs(step: Step) returns (ok: bool, moved: set<HtlcState>)
      requires Valid()
      modifies this
      ensures ok <==> NoUnderflow(old(State()), step)
      ensures ok ==> Valid() && State() == Change(old(State()), step) && moved == MovedFrom(old(State()), step)
    {
      hide OwedSoFar, StepHtlcs, StepHeights, SwapStepEffect, StepTable, Sum, StepView, StepSwap;
      hide HtlcStatesIn, SwapStatesIn, HeightStatesIn, MovedFrom;
      ghost var c := State();
      MovedFromIs(c, swap, step);
      var owed, byHtlcs := AdvanceHtlcs(step);
      OwedSize(owed, c.view.At(step.Changes()), c.htlcs, step);
      var after, bySwap := AdvanceSwap(step, owed);
      OwedIsStep(c, step, owed, after);
      ok := BalancesOk(after);
      if !ok { return false, {}; }
      view := With(view, step.Changes(), after);
      var byHeights := AdvanceHeights(step);
      moved := byHtlcs + bySwap + byHeights;
      ChangeWellFormed(c, step);
      NoUnderflowStays(c, step);
    }

    /** `channel_sending_commit`. */
    method SendingCommit() returns (ok: bool, changed: bool)
      requires Valid()
      modifies this
      ensures ok <==> NoUnderflow(old(State()), Step.SendingCommit)
      ensures ok ==> && Valid() && State() == Change(old(State()), Step.SendingCommit)
                     && changed == SomethingMoves(old(State()), Step.SendingCommit)
    {
      hide Valid, Change, NoUnderflow, SomethingMoves, MovedFrom;
      SomethingMovesIs(State(), Step.SendingCommit);
      var moved;
      ok, moved := ChangeHtlcs(Step.SendingCommit);
      changed := moved != {};
    }

    /** `channel_rcvd_commit`. */
    method RcvdCommit() returns (ok: bool, changed: bool)
      requires Valid()
      modifies this
      ensures ok <==> NoUnderflow(old(State()), Step.RcvdCommit)
      ensures ok ==> && Valid() && State() == Change(old(State()), Step.RcvdCommit)
                     && changed == SomethingMoves(old(State()), Step.RcvdCommit)
    {
      hide Valid, Change, NoUnderflow, SomethingMoves, MovedFrom;
      SomethingMovesIs(State(), Step.RcvdCommit);
      var moved;
      ok, moved := ChangeHtlcs(Step.RcvdCommit);
      changed := moved != {};
    }

    /**
      `channel_rcvd_revoke_and_ack`: a revocation moves no balance, so it cannot fail.  It says whether it queued
      something on our side.
     */
    method RcvdRevokeAndAck() returns (pending: bool)
      requires Valid()
      modifies this
      ensures Valid() && State() == Change(old(State()), RcvdRevoke) && view == old(view)
      ensures pending == QueuedBy(old(State()), RcvdRevoke)
    {
      RevokeCannotUnderflow(State(), RcvdRevoke);
      RevokeMovesNoBalance(State(), RcvdRevoke);
      hide Valid, Change, MovedFrom, Queues;
      var _, moved := ChangeHtlcs(RcvdRevoke);
      pending := exists s :: s in moved && Queues(s, Local);
    }

    /** `channel_sending_revoke_and_ack`; it says whether it queued something on the peer's side. */
    method SendingRevokeAndAck() returns (pending: bool)
      requires Valid()
      modifies this
      ensures Valid() && State() == Change(old(State()), SendingRevoke) && view == old(view)
      ensures pending == QueuedBy(old(State()), SendingRevoke)
    {
      RevokeCannotUnderflow(State(), SendingRevoke);
      RevokeMovesNoBalance(State(), SendingRevoke);
      hide Valid, Change, MovedFrom, Queues;
      var _, moved := ChangeHtlcs(SendingRevoke);
      pending := exists s :: s in moved && Queues(s, Remote);
    }

    /** `add_htlc`.  `failSoon` is the mark `fail_immediate`: let in, to be failed once it is committed. */
    method AddHtlc(cfg: Config, id: nat, h: Htlc, enforce: bool, errImmediate: bool)
      returns (err: AddErr, failSoon: bool)
      requires Valid() && !Dead(h.state)
      modifies this`htlcs
      ensures err == AddResult(cfg, old(State()), Key(Owner(h.state), id), h, enforce, errImmediate)
      ensures htlcs == if err == AddOk then old(htlcs)[Key(Owner(h.state), id) := h] else old(htlcs)
      ensures err == AddOk ==>
                var pool := PoolWith(old(State()), Key(Owner(h.state), id), h);
                failSoon == (h.lane == 0 && TooDusty(cfg, pool, Owner(h.state)))
      ensures err == AddOk && errImmediate ==> !failSoon
      ensures Valid()
    {
      var k := Key(Owner(h.state), id);
      err, failSoon := Admit(cfg, k, h, enforce, errImmediate);
      if err == AddOk {
        hide PoolWith, TooDusty;
        AcceptedFits(cfg, State(), k, h, enforce, errImmediate);
        htlcs := htlcs[k := h];
      }
    }

    /** The checks of `add_htlc`, in its order. */
    method Admit(cfg: Config, k: Key, h: Htlc, enforce: bool, errImmediate: bool) returns (err: AddErr, failSoon: bool)
      requires Valid()
      ensures err == AddResult(cfg, State(), k, h, enforce, errImmediate)
      ensures err == AddOk ==> failSoon == (h.lane == 0 && TooDusty(cfg, PoolWith(State(), k, h), Owner(h.state)))
      ensures err == AddOk && errImmediate ==> !failSoon
    {
      failSoon := false;
      hide NumOther, Gather, Dust, TooDusty, Affordable, Predicted, AmountTable, Sum;
      var sender := Owner(h.state);
      var recipient := sender.Other();
      if h.lane >= |view.local| { return CapacityExceeded, false; }
      if h.expiry >= LOCKTIME_THRESHOLD { return InvalidExpiry, false; }
      if k in htlcs {
        var was := htlcs[k];
        if was.state != h.state || was.amount != h.amount || was.expiry != h.expiry || was.rhash != h.rhash {
          return DuplicateIdDifferent, false;
        }
        return Duplicate, false;
      }
      if h.amount == 0 || h.amount < cfg.limits.At(recipient).htlcMinimum { return HtlcBelowMinimum, false; }
      if sender.Local? && h.amount > cfg.maxPayment && !cfg.wumbo { return MaxHtlcValueExceeded, false; }
      var _, count := GatherLane(recipient, None);
      var pool, _ := GatherLane(recipient, Some(h.lane));
      pool := pool.(adding := pool.adding[k := h]);
      if count + 1 > cfg.limits.At(recipient).maxAcceptedHtlcs { return TooManyHtlcs, false; }
      if enforce && sender.Local? && count + 1 > cfg.limits.local.maxAcceptedHtlcs { return TooManyHtlcs, false; }
      if h.lane != 0 {
        if enforce {
          var left := Predict(recipient, h.lane, pool, sender);
          if left < 0 { return CapacityExceeded, false; }
        }
        return AddOk, false;
      }
      err, failSoon := AdmitOwnLane(cfg, pool, sender, enforce, errImmediate);
    }

    /** The channel's own lane: what is in flight, fees, reserves and dust. */
    method AdmitOwnLane(cfg: Config, pool: Pool, sender: Side, enforce: bool, errImmediate: bool)
      returns (err: AddErr, failSoon: bool)
      requires Valid()
      ensures err == OwnLaneResult(cfg, State(), pool, sender, enforce, errImmediate)
      ensures err == AddOk ==> failSoon == TooDusty(cfg, pool, sender)
      ensures err == AddOk && errImmediate ==> !failSoon
    {
      hide Dust, Affordable, AmountTable, Sum, Valid;
      var recipient := sender.Other();
      failSoon := false;
      var committed := SumOffered(pool.committed, sender);
      var removing := SumOffered(pool.removing, sender);
      var adding := SumOffered(pool.adding, sender);
      if committed.None? || removing.None? || adding.None? { return MaxHtlcValueExceeded, false; }
      var inFlight := committed.value + adding.value;
      if inFlight >= U64_LIMIT || inFlight < removing.value { return MaxHtlcValueExceeded, false; }
      inFlight := inFlight - removing.value;
      if enforce && inFlight > cfg.limits.At(recipient).maxInFlight { return MaxHtlcValueExceeded, false; }
      if enforce {
        var ok := CanAfford(cfg, sender, pool);
        if !ok { return CapacityExceeded, false; }
      }
      var dust := DustOf(cfg, pool, recipient);
      if dust.None? { return CapacityExceeded, false; }
      if dust.value > cfg.maxDustExposure {
        failSoon := true;
        if errImmediate { return DustFailure, false; }
      }
      dust := DustOf(cfg, pool, sender);
      if dust.None? { return CapacityExceeded, false; }
      if dust.value > cfg.maxDustExposure {
        failSoon := true;
        if errImmediate { return DustFailure, false; }
      }
      return AddOk, failSoon;
    }

    /** `channel_fulfill_htlc`; `opens` says that the preimage matches. */
    method FulfillHtlc(owner: Side, id: nat, opens: bool) returns (err: RemoveErr)
      requires Valid()
      modifies this`htlcs
      ensures var k := Key(owner, id);
              var c := old(State());
              && (err == RemoveOk <==> k in c.htlcs && opens && Irrevocable(c.htlcs[k].state) && !c.htlcs[k].fulfilled)
              && (err == RemoveOk && !c.htlcs[k].failed ==> State() == Settled(c, k, true))
              && (err == NoSuchId <==> k !in c.htlcs)
              && (err == AlreadyFulfilled <==> k in c.htlcs && c.htlcs[k].fulfilled)
              && (err == BadPreimage <==> k in c.htlcs && !c.htlcs[k].fulfilled && !opens)
              && (err == HtlcUncommitted || err == HtlcNotIrrevocable ==>
                 State() == Offered(c, k, c.htlcs[k].(fulfilled := true)))
              && (err == NoSuchId || err == AlreadyFulfilled || err == BadPreimage ==> State() == c)
    {
      var k := Key(owner, id);
      if k !in htlcs { return NoSuchId; }
      var h := htlcs[k];
      if h.fulfilled { return AlreadyFulfilled; }
      if !opens { return BadPreimage; }
      htlcs := htlcs[k := h.(fulfilled := true)];
      if !Committed(h.state, Owner(h.state).Other()) { return HtlcUncommitted; }
      if h.state == SENT_ADD_ACK_REVOCATION {
        htlcs := htlcs[k := h.(fulfilled := true, state := RCVD_REMOVE_HTLC)];
      } else if h.state == RCVD_ADD_ACK_REVOCATION {
        htlcs := htlcs[k := h.(fulfilled := true, state := SENT_REMOVE_HTLC)];
      } else {
        return HtlcNotIrrevocable;
      }
      return RemoveOk;
    }

    /** `channel_fail_htlc` with the caller's marking of the HTLC as failed. */
    method FailHtlc(owner: Side, id: nat) returns (err: RemoveErr)
      requires Valid()
      modifies this`htlcs
      ensures var k := Key(owner, id);
              var c := old(State());
              && (err == RemoveOk <==> k in c.htlcs && Irrevocable(c.htlcs[k].state))
              && (err == RemoveOk && CanSettle(c, k) ==> State() == Settled(c, k, false))
              && (err == NoSuchId <==> k !in c.htlcs)
              && (err != RemoveOk ==> State() == c)
    {
      var k := Key(owner, id);
      if k !in htlcs { return NoSuchId; }
      var h := htlcs[k];
      if !Committed(h.state, Owner(h.state).Other()) { return HtlcUncommitted; }
      if h.state == SENT_ADD_ACK_REVOCATION {
        htlcs := htlcs[k := h.(failed := true, state := RCVD_REMOVE_HTLC)];
      } else if h.state == RCVD_ADD_ACK_REVOCATION {
        htlcs := htlcs[k := h.(failed := true, state := SENT_REMOVE_HTLC)];
      } else {
        return HtlcNotIrrevocable;
      }
      return RemoveOk;
    }
  
    /** `swap_affordable`. */
    method SwapIsAffordable(cfg: Config, payer: Side, lane: nat, amount: Msat) returns (ok: bool)
      requires Valid() && lane < State().Lanes()
      ensures ok == SwapAffordable(cfg, State(), payer, lane, amount)
    {
      hide Gather, AddingTable, Promised, Sum;
      var views := [Local, Remote];
      for i := 0 to 2
        invariant forall j :: 0 <= j < i ==> SwapAffordableIn(cfg, State(), views[j], payer, lane, amount)
      {
        var v := views[i];
        var pool, _ := GatherLane(v, Some(lane));
        var left := AddedTo(view.At(v)[lane].At(payer), pool, payer);
        var promised := SwapPromised(v, lane, payer);
        left := left - promised - amount;
        if left < 0 || (lane == 0 && left < cfg.reserve.At(payer)) {
          assert !SwapAffordableIn(cfg, State(), views[i], payer, lane, amount);
          return false;
        }
      }
      assert SwapAffordableIn(cfg, State(), views[0], payer, lane, amount)
             && SwapAffordableIn(cfg, State(), views[1], payer, lane, amount);
      return true;
    }

    /** `channel_sym_swap_check`. */
    method CheckSwap(cfg: Config, s: Swap) returns (err: SwapErr)
      requires Valid()
      ensures err == SwapCheck(cfg, State(), s)
    {
      hide SwapAffordable;
      var owner := Owner(s.state);
      var lanes := |view.local|;
      if lanes <= 1 { return OneAsset; }
      if swap.Some? { return SwapInFlight; }
      if s.giveLane == s.takeLane || s.giveLane >= lanes || s.takeLane >= lanes { return BadLanes; }
      if s.give == 0 || s.take == 0 { return EmptyLeg; }
      var ok := SwapIsAffordable(cfg, owner, s.giveLane, s.give);
      if !ok { return CannotPay(owner); }
      ok := SwapIsAffordable(cfg, owner.Other(), s.takeLane, s.take);
      if !ok { return CannotPay(owner.Other()); }
      return SwapOk;
    }

    /** `take_peer_swap`: the swap a commitment carries must be the one we asked for, and still affordable. */
    method TakePeerSwap(cfg: Config, s: Swap) returns (ok: bool)
      requires Valid() && s.state == RCVD_ADD_HTLC
      modifies this`req, this`swap
      ensures ok <==> && old(req).Some? && SameTerms(old(req).value, s)
                      && SwapCheck(cfg, old(State()).(req := None), s) == SwapOk
      ensures ok ==> Valid() && State() == TakeSwap(old(State()), Some(s))
    {
      if req.None? || !SameTerms(req.value, s) { return false; }
      req := None;
      assert State() == old(State()).(req := None);
      hide SwapAffordable;
      var err := CheckSwap(cfg, s);
      if err != SwapOk { return false; }
      swap := Some(s);
      return true;
    }

    /** `handle_sym_swap_accept` and `channel_sym_swap_add`: a swap of ours to send. */
    method AcceptSwap(cfg: Config, s: Swap) returns (ok: bool)
      requires Valid() && s.state == SENT_ADD_HTLC
      modifies this`swap
      ensures ok <==> old(req).None? && SwapCheck(cfg, old(State()), s) == SwapOk
      ensures Valid() && State() == if ok then old(State()).(swaps := Pair(Some(s), None)) else old(State())
    {
      if req.Some? { return false; }
      hide SwapAffordable;
      var err := CheckSwap(cfg, s);
      if err != SwapOk { return false; }
      swap := Some(s);
      return true;
    }

    /** `channel_sym_swap_done`. */
    method SwapFinished() returns (done: bool)
      requires Valid()
      modifies this`swap
      ensures Valid() && State() == SwapDone(old(State())) && done == (State() != old(State()))
    {
      if swap.None? || (swap.value.state != SENT_ADD_ACK_REVOCATION && swap.value.state != RCVD_ADD_ACK_REVOCATION) {
        return false;
      }
      swap := None;
      return true;
    }

    /** The balances after `adjust_balance`; not ok is an HTLC that left a view neither failed nor fulfilled. */
    static method AdjustBalance(owed: Pair<Balances>, h: Htlc) returns (ok: bool, after: Pair<Balances>)
      requires h.lane < |owed.local| == |owed.remote|
      ensures ok <==> forall v: Side :: Adjustable(h, v)
      ensures ok ==> after == Adjusted(owed, h)
    {
      after := owed;
      var views := [Local, Remote];
      for i := 0 to 2
        invariant |after.local| == |after.remote| == |owed.local|
        invariant forall j :: 0 <= j < i ==>
                  Adjustable(h, views[j]) && after.At(views[j]) == AdjustedIn(owed.At(views[j]), h, views[j])
        invariant forall j :: i <= j < 2 ==> after.At(views[j]) == owed.At(views[j])
      {
        var v := views[i];
        if WasCommitted(h.state, v) {
          var o := after.At(v)[h.lane];
          o := Pair(o.local + AddEffect(h, Local), o.remote + AddEffect(h, Remote));
          if !Committed(h.state, v) {
            if !h.failed && !h.fulfilled {
              assert !Adjustable(h, views[i]);
              return false, after;
            }
            o := Pair(o.local + RemoveEffect(h, Local), o.remote + RemoveEffect(h, Remote));
          }
          after := With(after, v, after.At(v)[h.lane := o]);
        }
      }
      assert Adjustable(h, views[0]) && Adjustable(h, views[1]);
      return true, after;
    }
  
    /** One saved HTLC of `channel_force_htlcs`. */
    method ForceOne(cfg: Config, saved: Saved, owed: Pair<Balances>) returns (ok: bool, after: Pair<Balances>)
      requires Valid() && !Dead(saved.h.state) && |owed.local| == |owed.remote| == |view.local|
      modifies this`htlcs
      ensures ok <==> && AddResult(cfg, old(State()), saved.Key(), Unmarked(saved.h), false, false) == AddOk
                      && forall v: Side :: Adjustable(saved.h, v)
      ensures ok ==> && Valid() && saved.Key() !in old(htlcs) && saved.h.lane < |view.local|
                     && htlcs == old(htlcs)[saved.Key() := saved.h] && after == Adjusted(owed, saved.h)
    {
      hide Adjustable, AddResult, Adjusted, NonNegative, Slot, PoolWith, TooDusty, Channel.WellFormed;
      assert Owner(Unmarked(saved.h).state) == saved.Key().owner && !Dead(Unmarked(saved.h).state);
      hide Unmarked, Dead, Owner;
      var h, k := saved.h, saved.Key();
      var err, _ := AddHtlc(cfg, saved.id, Unmarked(h), false, false);
      if err != AddOk { return false, owed; }
      MarkedFits(cfg, old(State()), k, h);
      htlcs := htlcs[k := h];
      assert State() == Offered(old(State()), k, h);
      ok, after := AdjustBalance(owed, h);
    }

    /** The swap in flight and the final check of `channel_force_htlcs`. */
    method FinishRestore(owed: Pair<Balances>) returns (ok: bool)
      requires Valid() && AdjustedSoFar(owed, view, htlcs)
      modifies this`view
      ensures ok <==> NonNegative(RestoredView(old(State()), htlcs))
      ensures ok ==> Valid() && view == RestoredView(old(State()), htlcs)
    {
      var c := RestoredIn(owed);
      hide RestoredView, AdjustedSoFar;
      var ours := BalancesOk(c.local);
      var theirs := BalancesOk(c.remote);
      ok := ours && theirs;
      NonNegativeInBoth(c);
      hide NonNegative;
      if !ok { return false; }
      view := c;
    }

    method RestoredIn(owed: Pair<Balances>) returns (after: Pair<Balances>)
      requires Valid() && AdjustedSoFar(owed, view, htlcs)
      ensures after == RestoredView(State(), htlcs) && |after.local| == |after.remote| == |view.local|
    {
      RestoredInView(State(), swap, owed, htlcs, Local);
      RestoredInView(State(), swap, owed, htlcs, Remote);
      after := Pair(SwapRestored(owed.local, swap, Local), SwapRestored(owed.remote, swap, Remote));
      hide SwapRestored;
    }

    /**
      `channel_force_htlcs`: put the saved HTLCs back and work out the balances from where they stand.
     */
    method ForceHtlcs(cfg: Config, list: seq<Saved>) returns (ok: bool)
      requires Valid() && htlcs == map[] && forall i :: 0 <= i < |list| ==> !Dead(list[i].h.state)
      modifies this`htlcs, this`view
      ensures ok <==> && Readmitted(cfg, old(State()), list)
                      && (forall i: nat, v: Side :: i < |list| ==> Adjustable(list[i].h, v))
                      && NonNegative(RestoredView(old(State()), SavedMap(list)))
      ensures ok ==> && Valid()
                     && State() == old(State()).(htlcs := SavedMap(list),
                                                 view := RestoredView(old(State()), SavedMap(list)))
    {
      hide AdjustedSoFar, RestoredView, Adjustable, SavedMap, AddResult, NonNegative, Adjusted;
      ghost var c := State();
      var owed := view;
      AdjustStarts(view);
      NothingSaved();
      assert list[..0] == [];
      for i := 0 to |list|
        invariant Valid() && State() == c.(htlcs := SavedMap(list[..i]))
        invariant AdjustedSoFar(owed, c.view, SavedMap(list[..i]))
        invariant forall j: nat :: j < i ==>
                    var d := c.(htlcs := SavedMap(list[..j]));
                    AddResult(cfg, d, list[j].Key(), Unmarked(list[j].h), false, false) == AddOk
        invariant forall j: nat, v: Side :: j < i ==> Adjustable(list[j].h, v)
      {
        SavedOneMore(list, i);
        AdjustedSize(owed, c.view, SavedMap(list[..i]));
        var fine, after := ForceOne(cfg, list[i], owed);
        if !fine { return false; }
        AdjustOn(owed, c.view, SavedMap(list[..i]), list[i].Key(), list[i].h);
        owed := after;
      }
      assert list[..|list|] == list;
      RestoredIgnoresHtlcs(c, State().htlcs);
      ok := FinishRestore(owed);
    }
  }
}
