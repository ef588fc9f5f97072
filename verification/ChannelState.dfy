/**
  The state of one channel as one peer keeps it, as a value, and what the updates and the four
  commit/revoke steps do to it.
 */
module ChannelState {
  import opened Sides
  import opened HtlcStates
  import opened Sums

  /** Amounts in millisatoshi.  Balances are kept in 64-bit signed integers, exact in this range. */
  type Msat = n: int | 0 <= n < 0x8000_0000_0000_0000

  datatype Key = Key(owner: Side, id: nat)

  datatype Htlc = Htlc(state: HtlcState, lane: nat, amount: Msat, expiry: nat, rhash: nat,
                       fulfilled: bool, failed: bool)

  /** A swap between two lanes: its owner gives in one lane and takes in the other. */
  datatype Swap = Swap(id: nat, state: HtlcState, giveLane: nat, takeLane: nat, give: Msat, take: Msat)

  /** What one view owes each side, lane by lane; lane 0 is the channel's own. */
  type Balances = seq<Pair<int>>

  /**
    `struct channel`.  `swaps` holds the swap in flight under its owner; the code has one slot for
    both, and refuses a second swap while one is in flight.
   */
  datatype Channel = Channel(
    htlcs: map<Key, Htlc>,
    view: Pair<Balances>,
    swaps: Pair<Option<Swap>>,
    req: Option<Swap>,
    heights: map<HtlcState, nat>,
    opener: Side)
  {
    function Lanes(): nat {
      |view.local|
    }

    function Owed(v: Side, lane: nat, p: Side): int
      requires |view.local| == |view.remote| && lane < Lanes()
    {
      view.At(v)[lane].At(p)
    }

    predicate Sized() {
      |view.local| == |view.remote| > 0
    }

    /** Both views have every lane, HTLCs sit in a lane under their owner, swaps between two lanes. */
    ghost predicate WellFormed() {
      && Sized()
      && (forall k :: k in htlcs ==> htlcs[k].lane < Lanes() && Owner(htlcs[k].state) == k.owner)
      && (forall k :: k in htlcs ==> !Dead(htlcs[k].state))
      && (swaps.local.Some? ==> SwapFits(swaps.local.value, Local))
      && (swaps.remote.Some? ==> SwapFits(swaps.remote.value, Remote))
    }

    predicate SwapFits(s: Swap, o: Side) {
      && Owner(s.state) == o
      && (IsAdding(s.state) || Irrevocable(s.state))
      && s.giveLane != s.takeLane && s.giveLane < Lanes() && s.takeLane < Lanes()
    }
  }

  // ---- What one HTLC or swap does to a balance

  /** Fulfilled HTLCs are paid to the recipient, any other goes back to its owner. */
  function PaidTo(h: Htlc): Side {
    if h.fulfilled then Owner(h.state).Other() else Owner(h.state)
  }

  /** `balance_add_htlc`. */
  function AddEffect(h: Htlc, p: Side): int {
    if Owner(h.state) == p then -(h.amount as int) else 0
  }

  /** `balance_remove_htlc`. */
  function RemoveEffect(h: Htlc, p: Side): int {
    if PaidTo(h) == p then h.amount else 0
  }

  /** `htlc_incstate`: what advancing `h` does to `p`'s balance in view `v`. */
  function AdvanceEffect(h: Htlc, v: Side, p: Side): int
    requires h.state < 19
  {
    if !Committed(h.state, v) && Committed(h.state + 1, v) then AddEffect(h, p)
    else if Committed(h.state, v) && !Committed(h.state + 1, v) then RemoveEffect(h, p)
    else 0
  }

  /** `balance_swap`: what the two legs do to `p`'s balance in `lane`. */
  function SwapEffect(s: Swap, lane: nat, p: Side): int {
    var sign := if Owner(s.state) == p then 1 else -1;
    (if s.giveLane == lane then -sign * s.give else 0) + (if s.takeLane == lane then sign * s.take else 0)
  }

  // ---- change_htlcs

  function Bumped(h: Htlc, step: Step): Htlc {
    h.(state := step.Bump(h.state))
  }

  /** The HTLCs after a step: those that reached a dead state are dropped. */
  function StepHtlcs(htlcs: map<Key, Htlc>, step: Step): map<Key, Htlc> {
    map k | k in htlcs && !Dead(step.Bump(htlcs[k].state)) :: Bumped(htlcs[k], step)
  }

  /** What a step's HTLCs contribute to `p`'s balance of `lane`. */
  function StepTable(htlcs: map<Key, Htlc>, step: Step, lane: nat, p: Side): map<Key, int> {
    map k | k in htlcs && step.Moves(htlcs[k].state) && htlcs[k].lane == lane ::
      AdvanceEffect(htlcs[k], step.Changes(), p)
  }

  predicate SwapCommits(s: Option<Swap>, step: Step) {
    && s.Some?
    && step.Moves(s.value.state)
    && !Committed(s.value.state, step.Changes()) && Committed(s.value.state + 1, step.Changes())
  }

  function SwapStepEffect(s: Option<Swap>, step: Step, lane: nat, p: Side): int {
    if SwapCommits(s, step) then SwapEffect(s.value, lane, p) else 0
  }

  function StepSwap(s: Option<Swap>, step: Step): Option<Swap> {
    if s.Some? then Some(s.value.(state := step.Bump(s.value.state))) else None
  }

  /** `inc_height_state`: a height moves to the next state, replacing what was there. */
  function IncHeight(hs: map<HtlcState, nat>, s: HtlcState): map<HtlcState, nat>
    requires s < 19
  {
    if s in hs then hs[s + 1 := hs[s]] - {s} else hs
  }

  /** Heights only advance through the adding states, last listed state first. */
  function StepHeights(hs: map<HtlcState, nat>, step: Step): map<HtlcState, nat> {
    match step
    case SendingCommit => IncHeight(IncHeight(hs, SENT_ADD_REVOCATION), SENT_ADD_HTLC)
    case RcvdRevoke => IncHeight(IncHeight(hs, SENT_ADD_ACK_COMMIT), SENT_ADD_COMMIT)
    case RcvdCommit => IncHeight(IncHeight(hs, RCVD_ADD_HTLC), RCVD_ADD_REVOCATION)
    case SendingRevoke => IncHeight(IncHeight(hs, RCVD_ADD_COMMIT), RCVD_ADD_ACK_COMMIT)
  }

  /** `p`'s balance of `lane` in the changed view after a step. */
  ghost function StepOwed(c: Channel, step: Step, lane: nat, p: Side): int
    requires |c.view.local| == |c.view.remote| && lane < c.Lanes()
  {
    c.Owed(step.Changes(), lane, p)
    + Sum(StepTable(c.htlcs, step, lane, p))
    + SwapStepEffect(c.swaps.local, step, lane, p)
    + SwapStepEffect(c.swaps.remote, step, lane, p)
  }

  ghost function StepView(c: Channel, step: Step): Balances
    requires |c.view.local| == |c.view.remote|
  {
    seq(c.Lanes(), lane requires 0 <= lane < c.Lanes() =>
      Pair(StepOwed(c, step, lane, Local), StepOwed(c, step, lane, Remote)))
  }

  /** `change_htlcs`, apart from its balance check. */
  ghost function Change(c: Channel, step: Step): Channel
    requires |c.view.local| == |c.view.remote|
  {
    c.(htlcs := StepHtlcs(c.htlcs, step),
       view := With(c.view, step.Changes(), StepView(c, step)),
       swaps := Pair(StepSwap(c.swaps.local, step), StepSwap(c.swaps.remote, step)),
       heights := StepHeights(c.heights, step))
  }

  /** The check at the end of `change_htlcs`: no balance of the changed view went negative. */
  ghost predicate NoUnderflow(c: Channel, step: Step)
    requires |c.view.local| == |c.view.remote|
  {
    forall lane: nat, p: Side :: lane < c.Lanes() ==> 0 <= StepOwed(c, step, lane, p)
  }

  /** `channel_sym_swap_done`: a swap that reached its last state is forgotten. */
  function Forgotten(s: Option<Swap>): Option<Swap> {
    if s.Some? && (s.value.state == SENT_ADD_ACK_REVOCATION || s.value.state == RCVD_ADD_ACK_REVOCATION)
    then None else s
  }

  function SwapDone(c: Channel): Channel {
    c.(swaps := Pair(Forgotten(c.swaps.local), Forgotten(c.swaps.remote)))
  }

  // ---- Updates

  function OfferState(owner: Side): HtlcState {
    if owner.Local? then SENT_ADD_HTLC else RCVD_ADD_HTLC
  }

  function Offered(c: Channel, k: Key, h: Htlc): Channel {
    c.(htlcs := c.htlcs[k := h])
  }

  /** The only states a fulfil or a fail is accepted in. */
  predicate Irrevocable(s: HtlcState) {
    s == SENT_ADD_ACK_REVOCATION || s == RCVD_ADD_ACK_REVOCATION
  }

  predicate CanSettle(c: Channel, k: Key) {
    k in c.htlcs && Irrevocable(c.htlcs[k].state) && !c.htlcs[k].fulfilled && !c.htlcs[k].failed
  }

  /** `channel_fulfill_htlc` or `channel_fail_htlc`, accepted. */
  function Settled(c: Channel, k: Key, fulfil: bool): Channel
    requires CanSettle(c, k)
  {
    var h := c.htlcs[k];
    c.(htlcs := c.htlcs[k := h.(state := h.state + 1, fulfilled := fulfil, failed := !fulfil)])
  }

  /** `start_height_update`. */
  function HeightStarted(c: Channel, height: nat): Channel {
    c.(heights := c.heights[OfferState(c.opener) := height])
  }
}
