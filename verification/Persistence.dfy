/** What outlives the channel daemon: the part of a channel that the master daemon has saved. */
module Persistence {
  import opened Sides
  import opened HtlcStates
  import opened ChannelState
  import opened Runs

  /** An HTLC is kept from the first commitment that has it. */
  predicate IsKept(h: Htlc) {
    h.state != SENT_ADD_HTLC && h.state != RCVD_ADD_HTLC
  }

  /** The peer's removal of one is heard of with the commitment that has it. */
  function KeptHtlc(h: Htlc): Htlc {
    if h.state == RCVD_REMOVE_HTLC then h.(state := SENT_ADD_ACK_REVOCATION, fulfilled := false, failed := false) else h
  }

  function Kept(htlcs: map<Key, Htlc>): map<Key, Htlc> {
    map k | k in htlcs && IsKept(htlcs[k]) :: KeptHtlc(htlcs[k])
  }

  /** A swap that no commitment has yet is saved or not, as messages happened to go. */
  predicate SavedSwap(live: Option<Swap>, saved: Option<Swap>) {
    saved == live || (live.Some? && live.value.state == SENT_ADD_HTLC && saved.None?)
  }

  /** So is a height; those that a commitment has are saved. */
  ghost predicate SavedHeights(live: map<HtlcState, nat>, saved: map<HtlcState, nat>) {
    forall s: HtlcState :: s != SENT_ADD_HTLC && s != RCVD_ADD_HTLC ==>
      (s in saved <==> s in live) && (s in saved ==> saved[s] == live[s])
  }

  /**
    The channel as it is built before its HTLCs are put back: both views at the base balances, and the swap in flight.
   */
  ghost predicate IsSaved(n: Node, c: Channel) {
    && c.htlcs == map[] && c.view == Pair(n.base, n.base)
    && c.req == n.chan.req && c.opener == n.chan.opener
    && c.swaps.remote == n.chan.swaps.remote && SavedSwap(n.chan.swaps.local, c.swaps.local)
    && SavedHeights(n.chan.heights, c.heights)
  }
}
