/** What every run does with the money of one HTLC and of one swap, and what it keeps of every lane's total. */
module Settlement {
  import opened Sides
  import opened HtlcStates
  import opened Sums
  import opened ChannelState
  import opened Ledger
  import opened Admission
  import opened Runs
  import opened Solvency

  // ---- Conservation

  function CommittedAmounts(htlcs: map<Key, Htlc>, v: Side, lane: nat): map<Key, int> {
    map k | k in htlcs && htlcs[k].lane == lane && Committed(htlcs[k].state, v) :: htlcs[k].amount
  }

  /** What a view holds in a lane: what it owes both sides and what its HTLCs lock up. */
  ghost function LaneTotal(c: Channel, v: Side, lane: nat): int
    requires c.Sized() && lane < c.Lanes()
  {
    c.Owed(v, lane, Local) + c.Owed(v, lane, Remote) + Sum(CommittedAmounts(c.htlcs, v, lane))
  }

  function BaseTotal(base: Balances, lane: nat): int
    requires lane < |base|
  {
    base[lane].local + base[lane].remote
  }

  /** The two sides' contributions of an HTLC cancel out but for its amount while it is committed. */
  lemma AdjustCancels(h: Htlc, v: Side)
    ensures Adjust(h, v, Local) + Adjust(h, v, Remote) == if Committed(h.state, v) then -(h.amount as int) else 0
  {
  }

  lemma TotalIsBaseTotal(c: Channel, base: Balances, v: Side, lane: nat)
    requires c.WellFormed() && Explained(c, base) && lane < c.Lanes()
    ensures LaneTotal(c, v, lane) == BaseTotal(base, lane)
  {
    hide Sum, SwapAdjust;
    var ours, theirs := AdjustTable(c.htlcs, v, lane, Local), AdjustTable(c.htlcs, v, lane, Remote);
    var locked := CommittedAmounts(c.htlcs, v, lane);
    var both := map k | k in ours :: ours[k] + theirs[k];
    SumAdd(ours, theirs, both);
    var paid := map k | k in ours :: if k in locked then locked[k] else 0;
    SumSupport(paid, locked);
    var nothing := map k | k in ours :: 0;
    SumZero(nothing);
    forall k | k in ours ensures both[k] + paid[k] == nothing[k] {
      hide Adjust;
      AdjustCancels(c.htlcs[k], v);
    }
    SumAdd(both, paid, nothing);
    SwapAdjustCancels(c.swaps.local, v, lane);
    SwapAdjustCancels(c.swaps.remote, v, lane);
    assert c.Owed(v, lane, Local) == Accounted(c, base, v, lane, Local);
    assert c.Owed(v, lane, Remote) == Accounted(c, base, v, lane, Remote);
  }

  lemma SwapAdjustCancels(s: Option<Swap>, v: Side, lane: nat)
    ensures SwapAdjust(s, v, lane, Local) + SwapAdjust(s, v, lane, Remote) == 0
  {
  }

  lemma StepKeepsBaseTotal(c: Channel, base: Balances, step: Step, lane: nat)
    requires lane < |base|
    ensures BaseTotal(BaseAfterStep(c, base, step), lane) == BaseTotal(base, lane)
  {
    hide Sum;
    var ours, theirs := DeadTable(c.htlcs, step, lane, Local), DeadTable(c.htlcs, step, lane, Remote);
    var nothing := map k | k in ours :: 0;
    SumZero(nothing);
    SumAdd(ours, theirs, nothing);
  }

  lemma DoneKeepsBaseTotal(c: Channel, base: Balances, lane: nat)
    requires lane < |base|
    ensures BaseTotal(BaseAfterDone(c, base), lane) == BaseTotal(base, lane)
  {
  }

  lemma ActionKeepsBaseTotal(n: Node, a: Action, lane: nat)
    requires n.chan.Sized() && lane < |n.base| && (a.Settle? ==> CanSettle(n.chan, a.k))
    ensures |Next(n, a).base| == |n.base| && BaseTotal(Next(n, a).base, lane) == BaseTotal(n.base, lane)
  {
    hide BaseTotal, Change;
    if a.SendCommit? {
      StepKeepsBaseTotal(n.chan, n.base, SendingCommit, lane);
    } else if a.RecvRevoke? {
      StepKeepsBaseTotal(n.chan, n.base, RcvdRevoke, lane);
      DoneKeepsBaseTotal(Change(n.chan, RcvdRevoke), BaseAfterStep(n.chan, n.base, RcvdRevoke), lane);
    } else if a.RecvCommit? {
      var m := BeforeCommit(n, a);
      StepKeepsBaseTotal(m.chan, m.base, RcvdCommit, lane);
      var m' := Committing(m, RcvdCommit);
      StepKeepsBaseTotal(m'.chan, m'.base, SendingRevoke, lane);
      DoneKeepsBaseTotal(Change(m'.chan, SendingRevoke), BaseAfterStep(m'.chan, m'.base, SendingRevoke), lane);
    }
  }

  lemma {:induction false} RunKeepsBaseTotal(cfg: Config, ns: seq<Node>, acts: seq<Action>, i: nat, lane: nat)
    requires IsRun(cfg, ns, acts) && i < |ns| && lane < |ns[0].base|
    ensures |ns[i].base| == |ns[0].base| && BaseTotal(ns[i].base, lane) == BaseTotal(ns[0].base, lane)
    decreases i
  {
    if i > 0 {
      RunKeepsBaseTotal(cfg, ns, acts, i - 1, lane);
      assert IsStep(cfg, ns[i - 1], acts[i - 1], ns[i]);
      ActionKeepsBaseTotal(ns[i - 1], acts[i - 1], lane);
    }
  }

  /** In every state of every run, each view holds in each lane exactly what the channel was opened with. */
  lemma Conservation(cfg: Config, ns: seq<Node>, acts: seq<Action>, i: nat, v: Side, lane: nat)
    requires IsRun(cfg, ns, acts) && i < |ns| && lane < ns[0].chan.Lanes()
    ensures ns[i].chan.Sized() && ns[i].chan.Lanes() == ns[0].chan.Lanes()
    ensures LaneTotal(ns[i].chan, v, lane) == BaseTotal(ns[0].base, lane)
  {
    RunKeepsInv(cfg, ns, acts, i);
    RunKeepsBaseTotal(cfg, ns, acts, i, lane);
    TotalIsBaseTotal(ns[i].chan, ns[i].base, v, lane);
  }

  /** A commitment changes one view only, and nothing else changes any balance. */
  lemma OneViewAtATime(cfg: Config, n: Node, a: Action)
    requires Inv(n) && Enabled(cfg, n, a)
    ensures !a.SendCommit? ==> Next(n, a).chan.view.remote == n.chan.view.remote
    ensures !a.RecvCommit? ==> Next(n, a).chan.view.local == n.chan.view.local
  {
    hide AddResult, SwapCheck, AllSolvent, Explained;
    if a.RecvRevoke? {
      RevokeMovesNoBalance(n.chan, RcvdRevoke);
    } else if a.RecvCommit? {
      if a.taken.Some? { SwapKeepsInv(cfg, n, a.taken.value); }
      var m := Committing(BeforeCommit(n, a), RcvdCommit);
      ChangeWellFormed(BeforeCommit(n, a).chan, RcvdCommit);
      RevokeMovesNoBalance(m.chan, SendingRevoke);
    }
  }

  // ---- The life of one HTLC

  /** The commitment that `a` makes: whose view it changes. */
  predicate Commits(a: Action, v: Side) {
    if v.Local? then a.RecvCommit? else a.SendCommit?
  }

  /** `a` takes the HTLC's amount from its owner in view `v`. */
  predicate Debits(n: Node, a: Action, k: Key, v: Side) {
    && Commits(a, v) && k in n.chan.htlcs
    && CommitStep(v).Moves(n.chan.htlcs[k].state) && !Committed(n.chan.htlcs[k].state, v)
  }

  /** `a` pays the HTLC's amount out in view `v`. */
  predicate Credits(n: Node, a: Action, k: Key, v: Side) {
    && Commits(a, v) && k in n.chan.htlcs
    && CommitStep(v).Moves(n.chan.htlcs[k].state) && Committed(n.chan.htlcs[k].state, v)
  }

  /** These are the only ways an HTLC enters a balance: `StepOwed` adds up nothing else. */
  lemma EventsAreTheTable(n: Node, a: Action, v: Side, lane: nat, p: Side)
    requires n.chan.Sized() && Commits(a, v)
    ensures StepTable(n.chan.htlcs, CommitStep(v), lane, p) ==
            map k | k in n.chan.htlcs && n.chan.htlcs[k].lane == lane && (Debits(n, a, k, v) || Credits(n, a, k, v)) ::
              if Debits(n, a, k, v) then AddEffect(n.chan.htlcs[k], p) else RemoveEffect(n.chan.htlcs[k], p)
  {
    forall k | k in n.chan.htlcs && CommitStep(v).Moves(n.chan.htlcs[k].state)
      ensures AdvanceEffect(n.chan.htlcs[k], v, p) ==
              if Debits(n, a, k, v) then AddEffect(n.chan.htlcs[k], p) else RemoveEffect(n.chan.htlcs[k], p)
    {
      StepFlags(CommitStep(v), n.chan.htlcs[k].state, v);
    }
  }

  /** The HTLC's state after `a`, and whether `a` buries it. */
  function StateAfter(s: HtlcState, a: Action): HtlcState {
    match a
    case SendCommit => SendingCommit.Bump(s)
    case RecvRevoke => RcvdRevoke.Bump(s)
    case RecvCommit(_) => SendingRevoke.Bump(RcvdCommit.Bump(s))
    case _ => s
  }

  /** How one action moves one HTLC that it does not settle. */
  lemma HtlcAfter(n: Node, a: Action, k: Key)
    requires n.chan.Sized() && k in n.chan.htlcs && !Dead(n.chan.htlcs[k].state)
    requires (a.Offer? ==> a.k != k) && (a.Settle? ==> CanSettle(n.chan, a.k) && a.k != k)
    ensures k in Next(n, a).chan.htlcs <==> !Dead(StateAfter(n.chan.htlcs[k].state, a))
    ensures k in Next(n, a).chan.htlcs ==>
              Next(n, a).chan.htlcs[k] == n.chan.htlcs[k].(state := StateAfter(n.chan.htlcs[k].state, a))
  {
    hide StepView, StepHeights, StepSwap;
  }

  /** An HTLC that is alive at both ends of an action. */
  ghost predicate HtlcStep(n: Node, a: Action, k: Key, n': Node, v: Side)
    requires k in n.chan.htlcs && k in n'.chan.htlcs
  {
    var h, h' := n.chan.htlcs[k], n'.chan.htlcs[k];
    && h'.amount == h.amount && h'.lane == h.lane && Owner(h'.state) == Owner(h.state)
    && (h.fulfilled || h.failed ==> h'.fulfilled == h.fulfilled)
    && (Debits(n, a, k, v) ==> !WasCommitted(h.state, v))
    && (Credits(n, a, k, v) ==> (h.fulfilled || h.failed) && WasCommitted(h.state, v) && Committed(h.state, v))
    && WasCommitted(h'.state, v) == (WasCommitted(h.state, v) || Debits(n, a, k, v))
    && Committed(h'.state, v) == ((Committed(h.state, v) || Debits(n, a, k, v)) && !Credits(n, a, k, v))
  }

  predicate DebitsState(s: HtlcState, a: Action, v: Side) {
    Commits(a, v) && CommitStep(v).Moves(s) && !Committed(s, v)
  }

  predicate CreditsState(s: HtlcState, a: Action, v: Side) {
    Commits(a, v) && CommitStep(v).Moves(s) && Committed(s, v)
  }

  lemma ActionOnState(s: HtlcState, a: Action, v: Side)
    requires !Dead(s) && !SendingRevoke.Moves(s)
    ensures var s' := StateAfter(s, a);
            && Owner(s') == Owner(s)
            && (DebitsState(s, a, v) ==> !WasCommitted(s, v))
            && (CreditsState(s, a, v) ==> WasCommitted(s, v) && Committed(s, v) && (5 <= s <= 9 || 15 <= s))
            && WasCommitted(s', v) == (WasCommitted(s, v) || DebitsState(s, a, v))
            && Committed(s', v) == ((Committed(s, v) || DebitsState(s, a, v)) && !CreditsState(s, a, v))
            && (Dead(s') ==> WasCommitted(s, v) && !DebitsState(s, a, v) && Committed(s, v) == CreditsState(s, a, v))
  {
  }

  lemma ActionOnHtlc(cfg: Config, n: Node, a: Action, k: Key, v: Side)
    requires Inv(n) && Enabled(cfg, n, a) && k in n.chan.htlcs
    ensures k in Next(n, a).chan.htlcs ==> HtlcStep(n, a, k, Next(n, a), v)
    ensures k !in Next(n, a).chan.htlcs ==>
              && WasCommitted(n.chan.htlcs[k].state, v) && !Debits(n, a, k, v)
              && Committed(n.chan.htlcs[k].state, v) == Credits(n, a, k, v)
  {
    var h := n.chan.htlcs[k];
    if a.Settle? && a.k == k {
      SettleOnHtlc(n, k, a.fulfil, v);
    } else {
      if a.Offer? {
        hide AllSolvent, Explained, AddResult;
        AcceptedLeavesRoom(cfg, n.chan, a.k, a.h, a.k.owner.Local?);
      }
      assert Rests(h.state, n.awaiting);
      hide AllSolvent, Explained, AddResult, Next, HtlcStep, Debits, Credits, Committed, WasCommitted, SwapCheck;
      PassOnHtlc(n, a, k, v);
    }
  }

  lemma PassOnHtlc(n: Node, a: Action, k: Key, v: Side)
    requires n.chan.Sized() && k in n.chan.htlcs && !Dead(n.chan.htlcs[k].state)
             && !SendingRevoke.Moves(n.chan.htlcs[k].state)
    requires var h := n.chan.htlcs[k]; 5 <= h.state <= 9 || 15 <= h.state <==> h.fulfilled || h.failed
    requires (a.Offer? ==> a.k != k) && (a.Settle? ==> CanSettle(n.chan, a.k) && a.k != k)
    ensures k in Next(n, a).chan.htlcs ==> HtlcStep(n, a, k, Next(n, a), v)
    ensures k !in Next(n, a).chan.htlcs ==>
              && WasCommitted(n.chan.htlcs[k].state, v) && !Debits(n, a, k, v)
              && Committed(n.chan.htlcs[k].state, v) == Credits(n, a, k, v)
  {
    hide Next, Committed, WasCommitted, StateAfter, Owner;
    HtlcAfter(n, a, k);
    ActionOnState(n.chan.htlcs[k].state, a, v);
  }

  lemma SettleOnHtlc(n: Node, k: Key, fulfil: bool, v: Side)
    requires n.chan.Sized() && CanSettle(n.chan, k)
    ensures HtlcStep(n, Settle(k, fulfil), k, Next(n, Settle(k, fulfil)), v)
  {
  }

  /** How many of the actions `acts[i..j]` debit, or credit, the HTLC in view `v`. */
  ghost function DebitCount(ns: seq<Node>, acts: seq<Action>, k: Key, v: Side, i: nat, j: nat): nat
    requires i <= j <= |acts| < |ns|
    decreases j
  {
    if i == j then 0
    else DebitCount(ns, acts, k, v, i, j - 1) + if Debits(ns[j - 1], acts[j - 1], k, v) then 1 else 0
  }

  ghost function CreditCount(ns: seq<Node>, acts: seq<Action>, k: Key, v: Side, i: nat, j: nat): nat
    requires i <= j <= |acts| < |ns|
    decreases j
  {
    if i == j then 0
    else CreditCount(ns, acts, k, v, i, j - 1) + if Credits(ns[j - 1], acts[j - 1], k, v) then 1 else 0
  }

  /** The HTLC is in the channel after each of the actions from `i` up to `j`. */
  ghost predicate Alive(ns: seq<Node>, k: Key, i: nat, j: nat)
    requires i <= j < |ns|
  {
    forall t: nat :: i <= t <= j ==> k in ns[t].chan.htlcs
  }

  lemma OfferedState(cfg: Config, n: Node, a: Action)
    requires n.chan.Sized() && Enabled(cfg, n, a) && a.Offer?
    ensures a.k in Next(n, a).chan.htlcs && Next(n, a).chan.htlcs[a.k].state == OfferState(a.k.owner)
  {
    hide AddResult;
  }

  /** While it lives, the flags of its state tell exactly what happened to it in each view. */
  lemma {:induction false} FlagsTellHistory(cfg: Config, ns: seq<Node>, acts: seq<Action>, k: Key, v: Side, i: nat,
      j: nat)
    requires IsRun(cfg, ns, acts) && 0 < i <= j <= |acts|
    requires acts[i - 1].Offer? && acts[i - 1].k == k && Alive(ns, k, i, j)
    ensures DebitCount(ns, acts, k, v, i, j) == if WasCommitted(ns[j].chan.htlcs[k].state, v) then 1 else 0
    ensures CreditCount(ns, acts, k, v, i, j) ==
            if WasCommitted(ns[j].chan.htlcs[k].state, v) && !Committed(ns[j].chan.htlcs[k].state, v) then 1 else 0
    decreases j
  {
    hide Initial, Inv, Debits, Credits, Enabled, Next;
    if i == j {
      assert IsStep(cfg, ns[i - 1], acts[i - 1], ns[i]);
      OfferedState(cfg, ns[i - 1], acts[i - 1]);
    } else {
      assert IsStep(cfg, ns[j - 1], acts[j - 1], ns[j]);
      FlagsTellHistory(cfg, ns, acts, k, v, i, j - 1);
      RunKeepsInv(cfg, ns, acts, j - 1);
      ActionOnHtlc(cfg, ns[j - 1], acts[j - 1], k, v);
    }
  }

  /**
    From its offer to its burial an HTLC debits its owner exactly once in each view and is paid out
    exactly once in each view; it is buried only once both views have paid it out.
   */
  lemma SettledOnce(cfg: Config, ns: seq<Node>, acts: seq<Action>, k: Key, v: Side, i: nat, d: nat)
    requires IsRun(cfg, ns, acts) && 0 < i <= d < |acts|
    requires acts[i - 1].Offer? && acts[i - 1].k == k && Alive(ns, k, i, d) && k !in ns[d + 1].chan.htlcs
    ensures DebitCount(ns, acts, k, v, i, d + 1) == 1
    ensures CreditCount(ns, acts, k, v, i, d + 1) == 1
  {
    hide Initial, Inv, Debits, Credits, Enabled, Next;
    FlagsTellHistory(cfg, ns, acts, k, v, i, d);
    RunKeepsInv(cfg, ns, acts, d);
    assert IsStep(cfg, ns[d], acts[d], ns[d + 1]);
    ActionOnHtlc(cfg, ns[d], acts[d], k, v);
  }

  lemma FateStays(cfg: Config, n: Node, a: Action, k: Key)
    requires Inv(n) && Enabled(cfg, n, a) && k in n.chan.htlcs && (n.chan.htlcs[k].fulfilled || n.chan.htlcs[k].failed)
    requires k in Next(n, a).chan.htlcs
    ensures var h := Next(n, a).chan.htlcs[k];
            (h.fulfilled || h.failed) && PaidTo(h) == PaidTo(n.chan.htlcs[k])
  {
    if a.Offer? {
      hide AllSolvent, Explained, AddResult;
      AcceptedLeavesRoom(cfg, n.chan, a.k, a.h, a.k.owner.Local?);
    }
    hide AllSolvent, Explained, AddResult, Next, SwapCheck;
    HtlcAfter(n, a, k);
  }

  /** Once it is fulfilled or failed, that is final. */
  lemma {:induction false} FateIsFinal(cfg: Config, ns: seq<Node>, acts: seq<Action>, k: Key, i: nat, j: nat)
    requires IsRun(cfg, ns, acts) && i <= j < |ns| && Alive(ns, k, i, j)
    requires ns[i].chan.htlcs[k].fulfilled || ns[i].chan.htlcs[k].failed
    ensures PaidTo(ns[j].chan.htlcs[k]) == PaidTo(ns[i].chan.htlcs[k])
    ensures ns[j].chan.htlcs[k].fulfilled || ns[j].chan.htlcs[k].failed
    decreases j
  {
    hide Initial, Inv, Enabled, Next, PaidTo;
    if i < j {
      FateIsFinal(cfg, ns, acts, k, i, j - 1);
      RunKeepsInv(cfg, ns, acts, j - 1);
      assert IsStep(cfg, ns[j - 1], acts[j - 1], ns[j]);
      FateStays(cfg, ns[j - 1], acts[j - 1], k);
    }
  }

  /** Both views pay the same party: the recipient if it was fulfilled, its owner if it was failed. */
  lemma SamePayee(cfg: Config, ns: seq<Node>, acts: seq<Action>, k: Key, fulfil: bool, s: nat, t: nat, v: Side)
    requires IsRun(cfg, ns, acts) && s < t < |acts| && acts[s] == Settle(k, fulfil)
    requires Alive(ns, k, s, t) && Credits(ns[t], acts[t], k, v)
    ensures PaidTo(ns[t].chan.htlcs[k]) == if fulfil then k.owner.Other() else k.owner
  {
    RunKeepsInv(cfg, ns, acts, s);
    assert IsStep(cfg, ns[s], acts[s], ns[s + 1]);
    assert ns[s + 1].chan.htlcs[k] == Settled(ns[s].chan, k, fulfil).htlcs[k];
    FateIsFinal(cfg, ns, acts, k, s + 1, t);
  }

  /** Nothing is paid out that was not settled first. */
  lemma CreditsOnlySettled(cfg: Config, ns: seq<Node>, acts: seq<Action>, k: Key, t: nat, v: Side)
    requires IsRun(cfg, ns, acts) && t < |acts| && Credits(ns[t], acts[t], k, v)
    ensures ns[t].chan.htlcs[k].fulfilled != ns[t].chan.htlcs[k].failed
  {
    RunKeepsInv(cfg, ns, acts, t);
    assert Marked(ns[t].chan);
  }

  // ---- The life of one swap

  /** `a` moves both legs of `o`'s swap in view `v`. */
  predicate MovesSwap(n: Node, a: Action, o: Side, v: Side) {
    Commits(a, v) && SwapCommits(BeforeCommit(n, a).chan.swaps.At(o), CommitStep(v))
  }

  ghost function SwapCount(ns: seq<Node>, acts: seq<Action>, o: Side, v: Side, i: nat, j: nat): nat
    requires i <= j <= |acts| < |ns|
    decreases j
  {
    if i == j then 0
    else SwapCount(ns, acts, o, v, i, j - 1) + if MovesSwap(ns[j - 1], acts[j - 1], o, v) then 1 else 0
  }

  /** What one step does for a swap: in one step both legs, in their own lanes, with nothing lost. */
  lemma SwapMovesBothLegs(c: Channel, o: Side, v: Side)
    requires c.WellFormed() && SwapCommits(c.swaps.At(o), CommitStep(v))
    ensures var s := c.swaps.At(o).value;
            var without := c.(swaps := With(c.swaps, o, None));
            forall lane: nat, p: Side :: lane < c.Lanes() ==>
              StepOwed(c, CommitStep(v), lane, p) == StepOwed(without, CommitStep(v), lane, p)
                + (if lane == s.giveLane then (if p == o then -(s.give as int) else s.give)
                   else if lane == s.takeLane then (if p == o then s.take else -(s.take as int))
                   else 0)
  {
    hide Sum, StepTable;
  }

  /** The swap's state after `a`: none once it is forgotten. */
  function SwapAfter(s: Option<Swap>, a: Action): Option<Swap> {
    if s.None? then None else Forgotten(Some(s.value.(state := StateAfter(s.value.state, a))))
  }

  lemma ActionOnSwap(n: Node, a: Action, o: Side)
    requires n.chan.Sized() && (a.Settle? ==> CanSettle(n.chan, a.k))
    requires !(o.Local? && a.AcceptSwap?)
    requires a.SendCommit? && BeforeCommit(n, a).chan.swaps.At(o).Some? ==>
             IsAdding(BeforeCommit(n, a).chan.swaps.At(o).value.state)
    requires BeforeCommit(n, a).chan.swaps.At(o).Some? ==> !Irrevocable(BeforeCommit(n, a).chan.swaps.At(o).value.state)
    ensures Next(n, a).chan.swaps.At(o) == SwapAfter(BeforeCommit(n, a).chan.swaps.At(o), a)
  {
    hide StepView, StepHeights, StepHtlcs;
  }

  lemma ActionOnSwapState(s: HtlcState, a: Action, v: Side)
    requires IsAdding(s) && !SendingRevoke.Moves(s)
    ensures var s' := StateAfter(s, a);
            && (IsAdding(s') || Irrevocable(s'))
            && (Irrevocable(s') ==> Committed(s', v))
            && (Commits(a, v) && CommitStep(v).Moves(s) && !Committed(s, v) && Committed(s + 1, v) ==>
               !Committed(s, v) && Committed(s', v))
            && (!(Commits(a, v) && CommitStep(v).Moves(s) && !Committed(s, v) && Committed(s + 1, v)) ==>
               Committed(s', v) == Committed(s, v))
  {
  }

  /** `a` puts a swap in flight that `o` owns. */
  predicate StartsSwap(n: Node, a: Action, o: Side) {
    if o.Local? then a.AcceptSwap? else a.RecvCommit? && a.taken.Some?
  }

  ghost predicate SwapAlive(ns: seq<Node>, o: Side, i: nat, j: nat)
    requires i <= j < |ns|
  {
    forall t: nat :: i <= t <= j ==> ns[t].chan.swaps.At(o).Some?
  }

  /** One action: what it adds to the count is what the swap's committed flag gains. */
  lemma SwapFlagAfter(cfg: Config, n: Node, a: Action, o: Side, v: Side)
    requires Inv(n) && Enabled(cfg, n, a) && !(o.Local? && a.AcceptSwap?)
    requires BeforeCommit(n, a).chan.swaps.At(o).Some?
    ensures var s := BeforeCommit(n, a).chan.swaps.At(o);
            var s' := Next(n, a).chan.swaps.At(o);
            && (s'.Some? ==> Committed(s'.value.state, v) == (Committed(s.value.state, v) || MovesSwap(n, a, o, v)))
            && (MovesSwap(n, a, o, v) ==> !Committed(s.value.state, v))
            && (s'.None? ==> Committed(s.value.state, v) || MovesSwap(n, a, o, v))
  {
    hide AllSolvent, Explained, AddResult, SwapCheck, Next, Marked;
    var s := BeforeCommit(n, a).chan.swaps.At(o).value.state;
    assert IsAdding(s) && !SendingRevoke.Moves(s);
    assert a.Settle? ==> CanSettle(n.chan, a.k);
    hide Inv, Enabled, Committed, StateAfter;
    ActionOnSwap(n, a, o);
    ActionOnSwapState(s, a, v);
  }

  lemma SwapFlagFirst(cfg: Config, n: Node, a: Action, o: Side, v: Side)
    requires Inv(n) && Enabled(cfg, n, a) && StartsSwap(n, a, o) && Next(n, a).chan.swaps.At(o).Some?
    ensures Committed(Next(n, a).chan.swaps.At(o).value.state, v) == MovesSwap(n, a, o, v)
  {
    if o.Remote? {
      assert !Committed(a.taken.value.state, v);
      hide Inv, Enabled, Next, MovesSwap, Committed;
      SwapFlagAfter(cfg, n, a, o, v);
    } else {
      hide Inv, SwapCheck;
    }
  }

  lemma {:induction false} SwapFlagTellsHistory(cfg: Config, ns: seq<Node>, acts: seq<Action>, o: Side, v: Side, i: nat,
      j: nat)
    requires IsRun(cfg, ns, acts) && i < j <= |acts|
    requires StartsSwap(ns[i], acts[i], o) && SwapAlive(ns, o, i + 1, j)
    ensures SwapCount(ns, acts, o, v, i, j) == if Committed(ns[j].chan.swaps.At(o).value.state, v) then 1 else 0
    decreases j
  {
    hide Initial, Inv, MovesSwap, Enabled, Next;
    RunKeepsInv(cfg, ns, acts, j - 1);
    assert IsStep(cfg, ns[j - 1], acts[j - 1], ns[j]);
    if i + 1 == j {
      assert SwapCount(ns, acts, o, v, i, i) == 0;
      SwapFlagFirst(cfg, ns[i], acts[i], o, v);
    } else {
      SwapFlagTellsHistory(cfg, ns, acts, o, v, i, j - 1);
      NoSecondSwap(cfg, ns[j - 1], acts[j - 1], o);
      SwapFlagAfter(cfg, ns[j - 1], acts[j - 1], o, v);
    }
  }

  /** While a swap is in flight no other is let in. */
  lemma NoSecondSwap(cfg: Config, n: Node, a: Action, o: Side)
    requires n.chan.Sized() && Enabled(cfg, n, a) && n.chan.swaps.At(o).Some?
    ensures !a.AcceptSwap? && !a.RequestSwap? && !(a.RecvCommit? && a.taken.Some?)
    ensures BeforeCommit(n, a).chan.swaps.At(o) == n.chan.swaps.At(o)
  {
    hide SwapAffordable, AddResult;
  }

  /** A swap moves its legs exactly once in each view, and is forgotten only when both views have it. */
  lemma SwapMovesOnce(cfg: Config, ns: seq<Node>, acts: seq<Action>, o: Side, v: Side, i: nat, d: nat)
    requires IsRun(cfg, ns, acts) && i < d < |acts|
    requires StartsSwap(ns[i], acts[i], o) && SwapAlive(ns, o, i + 1, d) && ns[d + 1].chan.swaps.At(o).None?
    ensures SwapCount(ns, acts, o, v, i, d + 1) == 1
  {
    SwapFlagTellsHistory(cfg, ns, acts, o, v, i, d);
    RunKeepsInv(cfg, ns, acts, d);
    assert IsStep(cfg, ns[d], acts[d], ns[d + 1]);
    NoSecondSwap(cfg, ns[d], acts[d], o);
    SwapFlagAfter(cfg, ns[d], acts[d], o, v);
  }
}
