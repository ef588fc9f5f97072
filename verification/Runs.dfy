/** The runs of one peer's channel: its own actions and whatever the other end sends that it accepts. */
module Runs {
  import opened Sides
  import opened HtlcStates
  import opened Sums
  import opened ChannelState
  import opened Ledger
  import opened Admission

  datatype Action =
    | Offer(k: Key, h: Htlc)               // an HTLC that either side adds
    | Settle(k: Key, fulfil: bool)         // its recipient fulfils or fails it
    | SendCommit
    | RecvRevoke
    | RecvCommit(taken: Option<Swap>)      // and the revocation we answer it with
    | AcceptSwap(swap: Swap)               // a swap the peer asked us for, ours to send
    | RequestSwap(swap: Swap)              // a swap we ask the peer for
    | CancelRequest
    | UpdateHeight(height: nat)

  /**
    `awaiting` says that our last commitment is not revoked yet
    (revocations_received == next_index[REMOTE] - 2); `base` is the part of the balances that comes
    from dead HTLCs and finished swaps.
   */
  datatype Node = Node(chan: Channel, awaiting: bool, base: Balances)

  /** The swap in the peer's commitment is the one we asked for, word for word. */
  predicate SameTerms(a: Swap, b: Swap) {
    a.id == b.id && a.giveLane == b.giveLane && a.takeLane == b.takeLane && a.give == b.give && a.take == b.take
  }

  predicate SomethingMoves(c: Channel, step: Step) {
    || (exists k :: k in c.htlcs && step.Moves(c.htlcs[k].state))
    || (c.swaps.local.Some? && step.Moves(c.swaps.local.value.state))
    || (c.swaps.remote.Some? && step.Moves(c.swaps.remote.value.state))
    || StepHeights(c.heights, step) != c.heights
  }

  ghost predicate Enabled(cfg: Config, n: Node, a: Action)
    requires n.chan.Sized()
  {
    var c := n.chan;
    match a
    case Offer(k, h) =>
      && h.state == OfferState(k.owner) && !h.fulfilled && !h.failed
      && AddResult(cfg, c, k, h, true, k.owner.Local?) == AddOk
    case Settle(k, _) => CanSettle(c, k)
    case SendCommit => !n.awaiting && SomethingMoves(c, SendingCommit)
    case RecvRevoke => n.awaiting
    case RecvCommit(taken) =>
      taken.Some? ==>
        && taken.value.state == RCVD_ADD_HTLC
        && c.req.Some? && SameTerms(c.req.value, taken.value)
        && SwapCheck(cfg, c.(req := None), taken.value) == SwapOk
    case AcceptSwap(s) => s.state == SENT_ADD_HTLC && c.req.None? && SwapCheck(cfg, c, s) == SwapOk
    case RequestSwap(s) => s.state == RCVD_ADD_HTLC && c.req.None? && SwapCheck(cfg, c, s) == SwapOk
    case CancelRequest => c.req.Some?
    case UpdateHeight(_) => true
  }

  /** `take_peer_swap`. */
  function TakeSwap(c: Channel, taken: Option<Swap>): Channel {
    if taken.None? then c else c.(req := None, swaps := Pair(c.swaps.local, taken))
  }

  /** A revocation, sent or received: the step, then finished swaps are forgotten. */
  ghost function Revoked(n: Node, step: Step): (r: Node)
    requires n.chan.Sized()
    ensures r.chan.Sized()
  {
    var c := Change(n.chan, step);
    n.(chan := SwapDone(c), base := BaseAfterDone(c, BaseAfterStep(n.chan, n.base, step)))
  }

  ghost function Committing(n: Node, step: Step): (r: Node)
    requires n.chan.Sized()
    ensures r.chan.Sized()
  {
    n.(chan := Change(n.chan, step), base := BaseAfterStep(n.chan, n.base, step))
  }

  /** The channel whose commit step `a` takes. */
  function BeforeCommit(n: Node, a: Action): Node {
    if a.RecvCommit? then n.(chan := TakeSwap(n.chan, a.taken)) else n
  }

  ghost function Next(n: Node, a: Action): (r: Node)
    requires n.chan.Sized()
    requires a.Settle? ==> CanSettle(n.chan, a.k)
    ensures r.chan.Sized()
  {
    var c := n.chan;
    match a
    case Offer(k, h) => n.(chan := Offered(c, k, h))
    case Settle(k, fulfil) => n.(chan := Settled(c, k, fulfil))
    case SendCommit => Committing(n, SendingCommit).(awaiting := true)
    case RecvRevoke => Revoked(n, RcvdRevoke).(awaiting := false)
    case RecvCommit(taken) =>
      var m := Committing(BeforeCommit(n, a), RcvdCommit);
      Revoked(m, SendingRevoke)
    case AcceptSwap(s) => n.(chan := c.(swaps := Pair(Some(s), c.swaps.remote)))
    case RequestSwap(s) => n.(chan := c.(req := Some(s)))
    case CancelRequest => n.(chan := c.(req := None))
    case UpdateHeight(h) => n.(chan := HeightStarted(c, h))
  }

  /** A new channel: nothing in flight, and both views agree on balances nobody overdrew. */
  ghost predicate Initial(n: Node) {
    && n.chan.Sized()
    && n.chan.htlcs == map[] && n.chan.swaps == Pair(None, None) && n.chan.req == None && !n.awaiting
    && n.chan.view.local == n.chan.view.remote == n.base
    && forall lane: nat, p: Side :: lane < n.chan.Lanes() ==> 0 <= n.base[lane].At(p)
  }

  ghost predicate IsStep(cfg: Config, n: Node, a: Action, n': Node) {
    n.chan.Sized() && Enabled(cfg, n, a) && n' == Next(n, a)
  }

  /** `ns[0]` is a new channel and `acts[i]` takes `ns[i]` to `ns[i + 1]`. */
  ghost predicate IsRun(cfg: Config, ns: seq<Node>, acts: seq<Action>) {
    && |ns| == |acts| + 1
    && Initial(ns[0])
    && forall i: nat :: i < |acts| ==> IsStep(cfg, ns[i], acts[i], ns[i + 1])
  }

  // ---- The invariant

  /** An HTLC is marked fulfilled or failed, never both, exactly from the moment it is being removed. */
  ghost predicate Marked(c: Channel) {
    forall k :: k in c.htlcs ==>
      var h := c.htlcs[k];
      (5 <= h.state <= 9 || 15 <= h.state <==> h.fulfilled || h.failed) && !(h.fulfilled && h.failed)
  }

  predicate Rests(s: HtlcState, awaiting: bool) {
    !SendingRevoke.Moves(s) && (!awaiting ==> !RcvdRevoke.Moves(s))
  }

  /** Nothing waits for a revocation we owe, nor, unless a commitment of ours is out, for one the peer owes. */
  ghost predicate Resting(c: Channel, awaiting: bool) {
    && (forall k :: k in c.htlcs ==> Rests(c.htlcs[k].state, awaiting))
    && (c.swaps.local.Some? ==> Rests(c.swaps.local.value.state, awaiting) && IsAdding(c.swaps.local.value.state))
    && (c.swaps.remote.Some? ==> Rests(c.swaps.remote.value.state, awaiting) && IsAdding(c.swaps.remote.value.state))
  }

  /** What the swaps in flight hold back from `p` in `lane`. */
  function Held(c: Channel, v: Side, lane: nat, p: Side): int {
    PromisedBy(c.swaps.local, v, lane, p) + PromisedBy(c.swaps.remote, v, lane, p)
  }

  /** `p`'s balance after the view's next commit step, swaps left aside. */
  ghost function NextOwed(c: Channel, v: Side, lane: nat, p: Side): int
    requires |c.view.local| == |c.view.remote| && lane < c.Lanes()
  {
    c.Owed(v, lane, p) + Sum(StepTable(c.htlcs, CommitStep(v), lane, p))
  }

  /** In each side's view, the other side can pay what it offered and what it promised. */
  ghost predicate Solvent(c: Channel, v: Side, lane: nat)
    requires |c.view.local| == |c.view.remote| && lane < c.Lanes()
  {
    var p := v.Other();
    && Held(c, v, lane, p) <= c.Owed(v, lane, p)
    && Held(c, v, lane, p) <= NextOwed(c, v, lane, p)
  }

  ghost predicate AllSolvent(c: Channel)
    requires |c.view.local| == |c.view.remote|
  {
    && (forall v: Side, lane: nat :: lane < c.Lanes() ==> Solvent(c, v, lane))
    && (forall lane: nat :: lane < c.Lanes() ==> 0 <= StepOwed(c, RcvdCommit, lane, Local))
    && (forall v: Side, lane: nat, p: Side :: lane < c.Lanes() ==> 0 <= c.Owed(v, lane, p))
  }

  ghost predicate Inv(n: Node) {
    && n.chan.WellFormed()
    && Explained(n.chan, n.base)
    && Marked(n.chan)
    && Resting(n.chan, n.awaiting)
    && AllSolvent(n.chan)
  }
}
