/** The twenty states an HTLC, a swap or a height update walks through, and the flags of each. */
module HtlcStates {
  import opened Sides

  /** `enum htlc_state`: ten states of an HTLC we offered, then the ten mirror images. */
  type HtlcState = s: int | 0 <= s < 20

  const SENT_ADD_HTLC: HtlcState := 0
  const SENT_ADD_COMMIT: HtlcState := 1
  const RCVD_ADD_REVOCATION: HtlcState := 2
  const RCVD_ADD_ACK_COMMIT: HtlcState := 3
  const SENT_ADD_ACK_REVOCATION: HtlcState := 4
  const RCVD_REMOVE_HTLC: HtlcState := 5
  const RCVD_REMOVE_COMMIT: HtlcState := 6
  const SENT_REMOVE_REVOCATION: HtlcState := 7
  const SENT_REMOVE_ACK_COMMIT: HtlcState := 8
  const RCVD_REMOVE_ACK_REVOCATION: HtlcState := 9

  const RCVD_ADD_HTLC: HtlcState := 10
  const RCVD_ADD_COMMIT: HtlcState := 11
  const SENT_ADD_REVOCATION: HtlcState := 12
  const SENT_ADD_ACK_COMMIT: HtlcState := 13
  const RCVD_ADD_ACK_REVOCATION: HtlcState := 14
  const SENT_REMOVE_HTLC: HtlcState := 15
  const SENT_REMOVE_COMMIT: HtlcState := 16
  const RCVD_REMOVE_REVOCATION: HtlcState := 17
  const RCVD_REMOVE_ACK_COMMIT: HtlcState := 18
  const SENT_REMOVE_ACK_REVOCATION: HtlcState := 19

  datatype Phase = Adding | Removing | Steady

  /** The flags one side has in a state: HTLC_F_PENDING, _COMMITTED, _REVOKED, _WAS_COMMITTED, _WILL_SEND. */
  datatype SideFlags = SideFlags(pending: bool, committed: bool, revoked: bool, wasCommitted: bool, willSend: bool)

  datatype StateFlags = StateFlags(phase: Phase, owner: Side, flags: Pair<SideFlags>)

  /** One row of the flag table: 1 where the flag is set, in the order of `SideFlags`. */
  function Row(p: int, c: int, r: int, w: int, s: int): SideFlags {
    SideFlags(p == 1, c == 1, r == 1, w == 1, s == 1)
  }

  /** `per_state_bits`: our flags first, then the peer's. */
  function Flags(s: HtlcState): StateFlags {
    match s
    //                                             P  C  R  W  S         P  C  R  W  S
    case 0 => StateFlags(Adding, Local, Pair(Row(0, 0, 0, 0, 1), Row(1, 0, 0, 0, 1)))
    case 1 => StateFlags(Adding, Local, Pair(Row(0, 0, 0, 0, 1), Row(0, 1, 0, 1, 1)))
    case 2 => StateFlags(Adding, Local, Pair(Row(1, 0, 0, 0, 1), Row(0, 1, 1, 1, 1)))
    case 3 => StateFlags(Adding, Local, Pair(Row(0, 1, 0, 1, 1), Row(0, 1, 1, 1, 0)))
    case 4 => StateFlags(Steady, Local, Pair(Row(0, 1, 1, 1, 0), Row(0, 1, 1, 1, 0)))
    case 5 => StateFlags(Removing, Local, Pair(Row(1, 1, 0, 1, 1), Row(0, 1, 0, 1, 1)))
    case 6 => StateFlags(Removing, Local, Pair(Row(0, 0, 0, 1, 1), Row(0, 1, 0, 1, 1)))
    case 7 => StateFlags(Removing, Local, Pair(Row(0, 0, 1, 1, 1), Row(1, 1, 0, 1, 1)))
    case 8 => StateFlags(Removing, Local, Pair(Row(0, 0, 1, 1, 0), Row(0, 0, 0, 1, 1)))
    case 9 => StateFlags(Steady, Local, Pair(Row(0, 0, 1, 1, 0), Row(0, 0, 1, 1, 0)))
    case 10 => StateFlags(Adding, Remote, Pair(Row(1, 0, 0, 0, 1), Row(0, 0, 0, 0, 1)))
    case 11 => StateFlags(Adding, Remote, Pair(Row(0, 1, 0, 1, 1), Row(0, 0, 0, 0, 1)))
    case 12 => StateFlags(Adding, Remote, Pair(Row(0, 1, 1, 1, 1), Row(1, 0, 0, 0, 1)))
    case 13 => StateFlags(Adding, Remote, Pair(Row(0, 1, 1, 1, 0), Row(0, 1, 0, 1, 1)))
    case 14 => StateFlags(Steady, Remote, Pair(Row(0, 1, 1, 1, 0), Row(0, 1, 1, 1, 0)))
    case 15 => StateFlags(Removing, Remote, Pair(Row(0, 1, 0, 1, 1), Row(1, 1, 0, 1, 1)))
    case 16 => StateFlags(Removing, Remote, Pair(Row(0, 1, 0, 1, 1), Row(0, 0, 0, 1, 1)))
    case 17 => StateFlags(Removing, Remote, Pair(Row(1, 1, 0, 1, 1), Row(0, 0, 1, 1, 1)))
    case 18 => StateFlags(Removing, Remote, Pair(Row(0, 0, 0, 1, 1), Row(0, 0, 1, 1, 0)))
    case _ => StateFlags(Steady, Remote, Pair(Row(0, 0, 1, 1, 0), Row(0, 0, 1, 1, 0)))
  }

  // The flags the channel reads, as ranges of states.

  predicate Committed(s: HtlcState, view: Side) {
    if view.Local? then 3 <= s <= 5 || 11 <= s <= 17 else 1 <= s <= 7 || 13 <= s <= 15
  }

  predicate Pending(s: HtlcState, view: Side) {
    if view.Local? then s == 2 || s == 5 || s == 10 || s == 17 else s == 0 || s == 7 || s == 12 || s == 15
  }

  predicate WasCommitted(s: HtlcState, view: Side) {
    if view.Local? then 3 <= s <= 9 || 11 <= s else 1 <= s <= 9 || 13 <= s
  }

  predicate WillSend(s: HtlcState, view: Side) {
    if view.Local? then s <= 3 || 5 <= s <= 7 || 10 <= s <= 12 || 15 <= s <= 18
    else s <= 2 || 5 <= s <= 8 || 10 <= s <= 13 || 15 <= s <= 17
  }

  /** HTLC_ADDING. */
  predicate IsAdding(s: HtlcState) {
    s <= 3 || 10 <= s <= 13
  }

  /** The ranges are the table. */
  lemma RangesAreTheTable(s: HtlcState, view: Side)
    ensures Committed(s, view) == Flags(s).flags.At(view).committed
    ensures Pending(s, view) == Flags(s).flags.At(view).pending
    ensures WasCommitted(s, view) == Flags(s).flags.At(view).wasCommitted
    ensures WillSend(s, view) == Flags(s).flags.At(view).willSend
    ensures IsAdding(s) == Flags(s).phase.Adding?
    ensures Owner(s) == Flags(s).owner
  {
  }

  /** `htlc_state_owner`. */
  function Owner(s: HtlcState): Side {
    if s < RCVD_ADD_HTLC then Local else Remote
  }

  /** `htlc_is_dead`. */
  predicate Dead(s: HtlcState) {
    s == RCVD_REMOVE_ACK_REVOCATION || s == SENT_REMOVE_ACK_REVOCATION
  }

  /** The same state as the peer names it (`dump_htlc`). */
  function Mirror(s: HtlcState): HtlcState {
    if s <= RCVD_REMOVE_ACK_REVOCATION then s + 10 else s - 10
  }

  /** The two halves of the table are one table: only the sides trade places. */
  lemma MirrorFlips(s: HtlcState)
    ensures Mirror(Mirror(s)) == s
    ensures Flags(Mirror(s)).phase == Flags(s).phase
    ensures Flags(Mirror(s)).owner == Flags(s).owner.Other()
    ensures Flags(Mirror(s)).flags == Flags(s).flags.Flip()
    ensures Dead(Mirror(s)) <==> Dead(s)
  {
  }

  /** The four protocol steps that advance states. */
  datatype Step = SendingCommit | RcvdRevoke | RcvdCommit | SendingRevoke {
    /** Whose view of the channel the step changes. */
    function Changes(): Side {
      if SendingCommit? || SendingRevoke? then Remote else Local
    }

    function Mirror(): Step {
      match this
      case SendingCommit => RcvdCommit
      case RcvdCommit => SendingCommit
      case RcvdRevoke => SendingRevoke
      case SendingRevoke => RcvdRevoke
    }

    /** The states the step advances by one, in the order the step lists them. */
    function Advanced(): seq<HtlcState> {
      match this
      case SendingCommit => [SENT_ADD_HTLC, SENT_REMOVE_REVOCATION, SENT_ADD_REVOCATION, SENT_REMOVE_HTLC]
      case RcvdRevoke => [SENT_ADD_COMMIT, SENT_REMOVE_ACK_COMMIT, SENT_ADD_ACK_COMMIT, SENT_REMOVE_COMMIT]
      case RcvdCommit => [RCVD_ADD_REVOCATION, RCVD_REMOVE_HTLC, RCVD_ADD_HTLC, RCVD_REMOVE_REVOCATION]
      case SendingRevoke => [RCVD_ADD_ACK_COMMIT, RCVD_REMOVE_COMMIT, RCVD_ADD_COMMIT, RCVD_REMOVE_ACK_COMMIT]
    }

    predicate Moves(s: HtlcState) {
      match this
      case SendingCommit => s == 0 || s == 7 || s == 12 || s == 15
      case RcvdRevoke => s == 1 || s == 8 || s == 13 || s == 16
      case RcvdCommit => s == 2 || s == 5 || s == 10 || s == 17
      case SendingRevoke => s == 3 || s == 6 || s == 11 || s == 18
    }

    lemma MovesIsAdvanced(s: HtlcState)
      ensures Moves(s) <==> s in Advanced()
    {
    }

    function Bump(s: HtlcState): HtlcState {
      if Moves(s) then s + 1 else s
    }
  }

  /** The commit step of each view: ours when we receive a commitment, the peer's when we send one. */
  function CommitStep(view: Side): Step {
    if view.Local? then RcvdCommit else SendingCommit
  }

  /** What every step does to a state, read off the flag table. */
  lemma StepFlags(step: Step, s: HtlcState, view: Side)
    requires step.Moves(s)
    ensures Owner(s + 1) == Owner(s)
    ensures view != step.Changes() ==> Committed(s + 1, view) == Committed(s, view)
    ensures WasCommitted(s + 1, view) == (WasCommitted(s, view) || Committed(s + 1, view))
    ensures Committed(s, view) ==> WasCommitted(s, view)
    ensures step == CommitStep(view) ==> Committed(s + 1, view) == !Committed(s, view)
    ensures step != CommitStep(view) ==> Committed(s + 1, view) == Committed(s, view)
    ensures step.Mirror().Moves(Mirror(s)) && Mirror(s) + 1 == Mirror(s + 1)
  {
  }

  /** A view's commit step moves exactly the states that are pending in that view. */
  lemma CommitStepMovesPending(s: HtlcState, view: Side)
    ensures CommitStep(view).Moves(s) <==> Pending(s, view)
  {
  }
}
