# A verified model of the channel core

SeqLN is a Lightning node for networks with several assets. This project models, in Dafny 4.11, the part of it
that money depends on: the state machine by which two peers update, commit and revoke a channel, and the
smaller protocols and codecs around it. It proves what holds over whole runs of that machine.

The modules follow the program.

| module | what it models |
|---|---|
| `Sides`, `Sums`, `HtlcWalks` | values kept for both sides; sums over finite maps; the loops over HTLCs |
| `HtlcStates` | the twenty HTLC states, their flags, and the four steps that advance them |
| `ChannelState` | one peer's channel as a value: HTLCs, the balances of both views in every lane, swaps, block heights |
| `Ledger` | where every balance comes from: a shared base plus one contribution per live HTLC and swap |
| `Admission` | `add_htlc` and `channel_sym_swap_check`, every refusal in order, and what they predict |
| `Runs`, `Solvency`, `Settlement` | all runs of one peer, their invariant, and what follows: no underflow, conservation, settling |
| `FullChannel`, `WireAmounts` | the live channel object, updated in place; its room check in 64-bit arithmetic |
| `Persistence`, `Restoring`, `Readmission` | what is saved of a channel, and starting again from that |
| `Messages`, `Mirrors`, `Links` | messages on the wire; mirror images; what holds between two ends and two queues |
| `Reestablish`, `Replays`, `Reconnects` | what two numbers tell about what was lost; sending it again; reconnecting |
| `TwoPeers`, `Channeld` | all runs of two peers, reconnections included; the daemon's handlers |
| `Heights`, `Quiescence`, `Closing`, `CommitTx` | block-height slots, quiescence, fee negotiation at closing, the commitment transaction |
| `Amounts` | 64-bit fee arithmetic |
| `Bech32`, `Bech32Checks`, `Bech32Bits`, `BitGroups`, `Segwit` | Bech32 text, its checksum and what that detects; regrouping bits; segwit addresses |

How the main proofs go:

- **No underflow.** `Ledger.Explained` says that both views are the same base plus what each HTLC and swap has
  done to that view so far. `Runs.Inv` adds that, in each view, the other side can pay what it offered and what it
  promised to swaps. Every action keeps this, and from it each commit step leaves every balance non-negative.
- **Two-peer agreement.** Sending and receiving can be swapped (`Messages.SendRecvCommute`) except for a
  commitment and a revocation that cross, and at most one commitment is outstanding. So a message on the wire may be
  taken as delivered, and then the two channels are mirror images (`Mirrors.IsMirror`). What a peer signed is
  its own view of the other's transaction until the signature arrives, and that view is what the other builds.
- **Reconnecting.** A restart forgets the updates that no commitment has, and sending the lost messages again must
  bring the ends back in step. `Replays.Replay` reads off the states what a queue of lost updates did, whatever their
  order, and shows that a queue sent again which covers the same updates does the same to what was kept
  of the channel. For the balances every action also keeps `Reconnects.Patient`: we stay solvent if what the peer gave
  back but has not committed is forgotten.
- **Bech32.** A polymod step is linear in the bits that have not reached the top, so feeding the six checksum
  values after the data cancels the six-fold step. A step also loses nothing, because the last five bits of the generators
  are independent, so six neighbouring values leave a mark that later ones cannot remove.

Where code and comment differ the model follows the code. Properties that turned out not to hold everywhere, each with
the exact condition under which they do and an input where they do not:

- `dev_quiesce` does not check that the channel is quiescent already (`Quiescence.DevRequestAgreesIff`).
- Two first closing offers of 0 make the non-opener fail (`Closing.Negotiate`).
- `amount_msat_sub_fee` computes its divisor in 32 bits. Where that wraps it fails, and where the quotient then wraps
  too it may return a wrong amount without failing (`Amounts.SubFeeIsRightIff`, `SubFeeWorksIff`, `WrongWithoutFailing`).
- Fees are computed and compared modulo 2^64 (`Amounts.FeeIsExactIff`, `ComparisonIsRightIff`).
- Anchors that the opener cannot pay for are added all the same, and the outputs can exceed the funding
  (`CommitTx.WithinFundingIff`).
- A zero byte before the separator cuts off the human-readable part (`Bech32Bits.Reencode`).
- `channel_force_htlcs` lets the saved HTLCs of a channel back in if they come in the order in which they were added, as
  its comment expects, but `peer_htlcs` lists them in the order of a hash table, and `max_accepted_htlcs` can then
  refuse one (`Readmission.ReadmittedIff`, `OutOfOrderIsRefused`).
- Amounts far above 2^63 wrap in the balance sums of `add_htlc` (`WireAmounts.RoomIsRightIff`, `LargeAmountPasses`).
- `segwit_addr_encode` takes an empty human-readable part and some negative versions, which do not come back
  (`Segwit.EncodeThenDecode`).

`dafny verify dfyconfig.toml` checks the whole project.

## Model

| member | source | states |
|---|---|---|
| HtlcStates.RangesAreTheTable | common/htlc_state.c:18-161 | the ranges of states used for committed, pending, was-committed, will-send, adding and owner are exactly the columns of the flag table |
| HtlcStates.MirrorFlips | channeld/full_channel.c:183-200 | a state as the peer names it has the same flags with the two sides traded, and naming it twice gives it back |
| HtlcStates.Step.MovesIsAdvanced | channeld/full_channel.c:1738-1803 | the states a step moves are the four it lists |
| HtlcStates.StepFlags | channeld/full_channel.c:1303-1341 | each step keeps the owner, changes the committed flag of its own view only if it is that view's commit step, and was-committed records every view that ever had it |
| Ledger.StepAdjustsTable | channeld/full_channel.c:1401-1443 | over all HTLCs of a lane, what `adjust_balance` reads off the states after a step is what it read before plus what the step did to the balance, less what died |
| Ledger.ChangeExplained | channeld/full_channel.c:1401-1507 | every step keeps every balance of both views equal to one shared base plus the contributions of HTLCs and swaps; the base moves only by what died |
| Ledger.DoneExplained | channeld/full_channel.c:2071-2079 | forgetting a finished swap moves it into the base both views share |
| Admission.GatherPredictsCommitted | channeld/full_channel.c:223-273 | committed, less removing, plus adding is exactly the committed set after that side's next commit step |
| Admission.PredictionIsCommit | channeld/full_channel.c:576-586 | the balance the admission check computes is a lower bound on the balance after the next commit step, and equals it when no swap is pending |
| Admission.AcceptedLeavesRoom | channeld/full_channel.c:752-772 | an HTLC that `add_htlc` accepts is new, in a lane the channel has, and leaves its sender able to pay it in the recipient's view together with all it promised to swaps |
| Solvency.RevokeMovesNoBalance | channeld/full_channel.c:1756-1803 | a revocation, sent or received, changes no balance |
| Solvency.OwnViewCovered | channeld/full_channel.c:1774-1788 | in a side's own view, what its next commit step leaves it is covered by what the other view already leaves it |
| Solvency.OfferSolvent | channeld/full_channel.c:916-989 | an accepted HTLC leaves every side of every view able to pay what is pending |
| Solvency.SendCommitSolvent | channeld/full_channel.c:1738-1754 | sending a commitment underflows no balance and keeps everyone solvent |
| Solvency.RecvCommitSolvent | channeld/full_channel.c:1774-1788 | receiving a commitment underflows no balance and keeps everyone solvent |
| Solvency.SwapSolvent | channeld/full_channel.c:2008-2062 | a swap that passes the check leaves every side of every view able to pay its leg and all that is pending |
| Solvency.ActionKeepsInv | channeld/full_channel.c:1401-1507 | every action of a peer keeps the invariant, and its commit steps underflow nothing |
| Solvency.NoRunUnderflows | channeld/full_channel.c:1470-1492 | in every run whose HTLCs and swaps passed their checks, the balance underflow failures are unreachable and no balance is ever negative |
| Settlement.Conservation | channeld/full_channel.c:41-64 | in each view and lane, what both sides are owed plus the HTLCs committed there is the lane's funding, at every point of every run |
| Settlement.OneViewAtATime | channeld/full_channel.c:1401-1420 | an action leaves the other view's balances untouched, and only a commitment moves any |
| Settlement.EventsAreTheTable | channeld/full_channel.c:1303-1341 | the debits and credits counted below are all that a commit step adds up |
| Settlement.FlagsTellHistory | channeld/full_channel.c:1424-1443 | while an HTLC lives, its flags tell exactly how often it was debited and credited in each view |
| Settlement.SettledOnce | channeld/full_channel.c:1424-1443 | from offer to burial an HTLC is debited once and paid out once in each view, and is buried only then |
| Settlement.FateIsFinal | channeld/full_channel.c:1183-1301 | once fulfilled or failed, an HTLC's payee never changes |
| Settlement.SamePayee | channeld/full_channel.c:50-64 | both views pay the recipient if it was fulfilled and the owner if it was failed |
| Settlement.CreditsOnlySettled | channeld/full_channel.c:1183-1301 | nothing is paid out that was not fulfilled or failed, one of the two |
| Settlement.SwapMovesBothLegs | channeld/full_channel.c:89-103 | the step that commits a swap moves both legs, each in its own lane and from one side to the other, and nothing in any other lane |
| Settlement.SwapMovesOnce | channeld/full_channel.c:1445-1468 | from acceptance to being forgotten a swap moves exactly once in each view, and is forgotten only when both have it |
| Settlement.NoSecondSwap | channeld/full_channel.c:2034-2044 | while a swap is in flight no other is accepted, asked for or taken |
| HtlcWalks.SumOffered | channeld/full_channel.c:298-312 | the sum of a side's HTLC amounts, or nothing exactly if it does not fit in 64 bits |
| HtlcWalks.DustOf | channeld/full_channel.c:651-684 | committed plus adding less removing trimmed amounts, or nothing where 64-bit arithmetic fails |
| HtlcWalks.NumUntrimmedIn | channeld/full_channel.c:606-627 | how many HTLCs of the predicted commitment are not trimmed |
| FullChannel.LiveChannel.constructor | channeld/full_channel.c:133-174 | a new channel is an initial state of every run |
| FullChannel.LiveChannel.GatherLane | channeld/full_channel.c:223-273 | the loop gathers the committed, removing and adding HTLCs of a view and lane and counts the other side's |
| FullChannel.LiveChannel.SwapPromised | channeld/full_channel.c:107-131 | what a side has promised to swaps the view has not committed |
| FullChannel.LiveChannel.RoomAboveReserve | channeld/full_channel.c:550-604 | what is left above the reserve in the predicted balance, if anything is |
| FullChannel.LiveChannel.CanAfford | channeld/full_channel.c:963-1065 | the fee, anchor and headroom conditions of `add_htlc`, both for the sender and for the opener |
| FullChannel.LiveChannel.AddHtlc | channeld/full_channel.c:774-1123 | returns the first refusal that applies, or puts the HTLC in and changes nothing else; it is marked to fail at once exactly if it brings dust above the limit |
| FullChannel.LiveChannel.FulfillHtlc | channeld/full_channel.c:1183-1259 | succeeds exactly for an HTLC that is irrevocable, unfulfilled and whose preimage opens it; each error and what it leaves behind |
| FullChannel.LiveChannel.FailHtlc | channeld/full_channel.c:1261-1301 | succeeds exactly for an irrevocable HTLC; an error changes nothing |
| FullChannel.LiveChannel.AdvanceHtlcs | channeld/full_channel.c:1420-1443 | the loop advances or drops every HTLC the step lists and runs the balances of its lane |
| FullChannel.LiveChannel.AdvanceSwap | channeld/full_channel.c:1445-1468 | the swap in flight advances, and its legs move when the view commits it |
| FullChannel.LiveChannel.AdvanceHeights | channeld/full_channel.c:1494-1504 | the heights advance last state first, and it tells which did |
| FullChannel.LiveChannel.ChangeHtlcs | channeld/full_channel.c:1401-1507 | fails exactly if a balance would go below zero; otherwise the state is the step's, and it tells which states something left |
| FullChannel.LiveChannel.SendingCommit | channeld/full_channel.c:1738-1754 | the same for the commitment we send |
| FullChannel.LiveChannel.RcvdCommit | channeld/full_channel.c:1774-1788 | the same for the commitment we receive |
| FullChannel.LiveChannel.RcvdRevokeAndAck | channeld/full_channel.c:1756-1771 | cannot fail: the state is the step's and no balance changes; true exactly if something became pending in our view |
| FullChannel.LiveChannel.SendingRevokeAndAck | channeld/full_channel.c:1790-1803 | cannot fail: the state is the step's and no balance changes; true exactly if something became pending in the peer's view |
| FullChannel.PendingMeansDue | channeld/full_channel.c:1769-1803 | after a revocation a commitment to the view is due if and only if it was before or the revocation returned true |
| FullChannel.LiveChannel.CheckSwap | channeld/full_channel.c:2034-2062 | the first objection to a swap, in order, or none |
| FullChannel.LiveChannel.SwapIsAffordable | channeld/full_channel.c:2008-2032 | the payer can pay in both views beyond what its pending HTLCs and promised swaps take, above its reserve in lane 0 |
| FullChannel.LiveChannel.TakePeerSwap | channeld/channeld.c:2264-2292 | takes the swap exactly if it is the one we asked for, word for word, and it passes the check |
| FullChannel.LiveChannel.AcceptSwap | channeld/channeld.c:6883-6907 | accepts a swap exactly if none is asked for or in flight and it passes the check |
| FullChannel.LiveChannel.SwapFinished | channeld/full_channel.c:2071-2079 | forgets the swap exactly if it reached its last state |
| FullChannel.LiveChannel.AdjustBalance | channeld/full_channel.c:1825-1857 | both views' balances of the HTLC's lane move by what its state says it did; refuses an HTLC a view dropped unsettled |
| FullChannel.LiveChannel.ForceHtlcs | channeld/full_channel.c:1889-2002 | succeeds exactly if every HTLC is admitted again, none was dropped unsettled and no balance comes out negative; then the state is fully determined |
| Restoring.RestoreIsTheLiveRun | channeld/full_channel.c:1889-2002 | at every point of every run, restoring the saved HTLCs (without additions that no commitment has, and without the peer's removals that none has) from the base balances gives the live balances of both views, and only a refusal by `add_htlc` can stop it |
| Restoring.NoBalanceWraps | channeld/full_channel.c:29-48 | in whatever order a commit step takes the HTLCs, no running balance leaves 64 signed bits while the lane holds less than 2^63 |
| WireAmounts.LaneRoom | channeld/full_channel.c:752-772 | the sums as computed, wrapping after each operation: there is room exactly if the plain sum, wrapped once, is not negative |
| WireAmounts.RoomIsRightIff | channeld/full_channel.c:752-772 | at every point of every run, for any 64-bit amount: that check is right if and only if the amount is no more than 2^63 above the balance (or so large that a negative one wraps back) |
| WireAmounts.LargeAmountPasses | channeld/full_channel.c:752-772 | in a new channel where the peer has 10 in lane 1 there is room for 2^64-1 |
| Readmission.RunRecords | channeld/full_channel.c:887-905 | in every run, each HTLC has room in `max_accepted_htlcs` for itself and those of its side that came before it and are still counted |
| Readmission.ReadmittedIff | channeld/full_channel.c:1915-1943 | at every point of every run, for any order of the list: all saved HTLCs are let back in if and only if `max_accepted_htlcs` is not exceeded on the way |
| Readmission.OrderReadmits | channeld/full_channel.c:1904-1943 | in the order in which they were added all saved HTLCs are let back in |
| Readmission.OutOfOrderIsRefused | lightningd/peer_htlcs.c:3164-3242 | a run, what is saved at its end and a list of that in another order, for which one HTLC is refused |
| Readmission.Restart | channeld/full_channel.c:1889-2002 | at every point of every run, the saved channel put through `channel_force_htlcs` has the live balances and the saved HTLCs, or it fails exactly if the count is exceeded on the way |
| Messages.StepsCommute | channeld/full_channel.c:1401-1507 | steps that change different views, of the kinds that can cross, can be taken in either order |
| Messages.SendRecvCommute | channeld/channeld.c:1592-1602 | sending and receiving can be swapped for every pair of messages but a commitment and a revocation that cross |
| Messages.DeliverKeepsContent | channeld/full_channel.c:1401-1507 | nothing that arrives changes what we have in the peer's commitment, and only a commitment changes our own |
| Mirrors.StepMirrors | channeld/full_channel.c:1401-1507 | when one end takes a step and the other its counterpart, HTLCs, balances, heights and swaps stay mirror images |
| Mirrors.SendMirrors | channeld/channeld.c:1577-1768 | whatever one end sends, the mirrored end can take, and the two stay mirror images |
| TwoPeers.OwnActionSends | channeld/channeld.c:1336-1350 | what a peer does on its own is what sending its message does, and a commitment carries the swap that it commits first |
| TwoPeers.StepKeepsLinkInv | channeld/channeld.c:1577-1768 | every event, at either end or a reconnection of both, keeps the two-peer invariant |
| TwoPeers.SignaturesAgree | channeld/channeld.c:2445-2503 | whenever a commitment is processed, sent for the first time or again after a reconnection, HTLCs, balances of every lane and block height of the transaction the receiver builds, and the swap it carries, are those the sender signed, sides swapped |
| TwoPeers.QuietEndsMirror | channeld/full_channel.c:1401-1507 | with nothing on the wire the two channels are mirror images, swap in flight included |
| TwoPeers.NothingIsOutOfPlace | channeld/channeld.c:2987-2990 | no message, sent for the first time or again, is structurally refused: ids are new, fulfils and fails are for HTLCs that can be settled, revocations are expected |
| TwoPeers.NeitherUnderflows | channeld/full_channel.c:1470-1492 | in every two-peer run, over any number of reconnections, no commit step of either peer underflows |
| TwoPeers.ReestablishIsExact | channeld/channeld.c:6503-6611 | lose everything on the wire at any moment, after whatever reconnections: no refusal is reached, each end resends a commitment or revocation exactly if it was lost, in the order first sent |
| TwoPeers.ReconnectionGoesThrough | channeld/channeld.c:6113-6658 | unless a height is on its way, a run can reconnect at any moment and go on; the same commitments and revocations are then on the wire again |
| Replays.Replay | channeld/channeld.c:5774-5873 | updates lost on the wire, with or without a revocation among them: sent again in any order after a restart they leave the HTLCs as the lost ones would have, but for additions that are not sent again |
| Reconnects.ActionKeepsPatience | lightningd/peer_htlcs.c:41-44 | every action keeps a peer able to pay all that is pending should it then forget the peer's removals that no commitment has |
| Reconnects.RestartKeepsInv | lightningd/peer_htlcs.c:625-648 | a restart from what was saved keeps the invariant of runs |
| Reconnects.OwedIsResent | channeld/channeld.c:5808-5873 | the updates of the commitment on its way and our removals in none can always be listed, each once |
| Reconnects.ReconnectKeepsInv | channeld/channeld.c:5774-5926 | lose everything on the wire at any moment, restart both ends from what was saved, send again what the numbers ask for: the ends and the wire agree as before |
| Channeld.LivePeer.constructor | channeld/channeld.c:7526-7528 | a new peer starts with both commitment numbers at 1 and no revocation received |
| Channeld.LivePeer.SendCommit | channeld/channeld.c:1577-1768 | commits exactly if no revocation is outstanding and something changes, and sends the transaction it then has for the peer |
| Channeld.LivePeer.HandleCommitSig | channeld/channeld.c:2294-2698 | answers with a revocation, in the state after both steps, exactly if swap and signature are accepted and the commitment changes something or neither is the first of the channel nor follows an empty one |
| Channeld.LivePeer.HandleRevokeAndAck | channeld/channeld.c:2970-3078 | accepts a revocation exactly if one is expected |
| Channeld.LivePeer.Reconnect | channeld/channeld.c:6503-6611 | the branches on the two numbers, the refusals, and the order of what is sent again |
| Heights.HeightStates.constructor | common/blockheight_states.c:9-24 | only the last slot of the opener is set |
| Heights.HeightStates.GetBlockheight | common/blockheight_states.c:26-44 | the first height in the opener's states that is committed on the side, or the abort |
| Heights.HeightStates.StartHeightUpdate | common/blockheight_states.c:46-59 | sets or replaces the first slot and nothing else |
| Heights.HeightStates.ChangesDone | common/blockheight_states.c:63-74 | exactly one slot is in use, uncommitted ones left out on request |
| Heights.HeightStates.IncHeightState | common/blockheight_states.c:76-91 | moves a height to the next slot, replacing what was there |
| Heights.PipelineIsSound | common/blockheight_states.c:26-91 | when updates start only once the last is done: both sides can always read a height, only the last slot's is ever replaced, and once drained both read the height started last |
| Heights.EarlyStartDropsAHeight | channeld/channeld.c:1675-1687 | started early, a second update can run into the first half way and drop it |
| Quiescence.LiveStfu.MaybeSendStfu | channeld/channeld.c:257-304 | sends once, unless held up, and stops wanting when both have sent |
| Quiescence.LiveStfu.HandleStfu | channeld/channeld.c:312-376 | who becomes initiator, and the refusal of an unsolicited answer or of a peer with updates pending |
| Quiescence.LiveStfu.HandleStfuReq | channeld/channeld.c:5505-5542 | a request is refused while one is wanted or the channel is quiescent |
| Quiescence.QuiescentPeersAgree | channeld/channeld.c:257-376 | in every interleaving two quiescent peers name the same initiator, and an `stfu` is refused exactly if its sender has updates pending |
| Quiescence.DevRequestAgreesIff | channeld/channeld.c:7281-7293 | `dev_quiesce` keeps the peers agreed if and only if the channel is not quiescent yet or we are its initiator |
| Quiescence.DevRequestBreaksAgreement | channeld/channeld.c:7281-7293 | a run after which it makes two quiescent peers disagree |
| Closing.OfferInRange | closingd/closingd.c:553-624 | a new offer is the other's or within the range and our minimum, one step in from our end and stopping at the other; it fails exactly if our minimum is above the range (or the range cannot be stepped) |
| Closing.StepIs | closingd/closingd.c:587-605 | the step is so many satoshi less one, or that percentage of the range, as long as the 64-bit products do not wrap |
| Closing.Negotiate | closingd/closingd.c:1078-1130 | two peers running the loop end after no more rounds than their first offers are apart, on a fee between those, or one gives up because its minimum is higher; equal first offers of 0 fail |
| Closing.FeeBounds | closingd/closingd.c:675-743 | minimum, ideal and maximum come out in order, the non-opener's maximum is the funding |
| Closing.QuickcloseAsOpener | closingd/closingd.c:747-823 | takes the other's fee exactly if the ranges overlap and it is in both, and answers only if it was not its own |
| Closing.QuickcloseAsOther | closingd/closingd.c:747-890 | offers its own fee, moved into the overlap if need be, and waits exactly if that is not the fee it got |
| Closing.Quickclose | closingd/closingd.c:675-890 | two or three offers, the same fee in both ranges at both ends, the non-opener waits exactly if the opener sends and the opener never does; it fails exactly if the ranges do not overlap |
| CommitTx.TrySubtractFee | common/initial_commit_tx.c:31-48 | the fee comes off the opener's amount, which is left at zero if it is not enough, and never off the other's |
| CommitTx.CountUntrimmed | channeld/commit_tx.c:26-42 | how many HTLCs get an output |
| CommitTx.AddHtlcOutputs | channeld/commit_tx.c:240-276 | each loop adds one output, with amount, script and map entry, for each untrimmed HTLC of its direction |
| CommitTx.PermuteOutputs | common/permute_tx.c:71-105 | outputs, map and expiries move together, and end up in order of amount, script and expiry |
| CommitTx.ClearDummies | channeld/commit_tx.c:449-461 | every dummy is found where sorting put it and cleared; HTLC entries stay |
| CommitTx.BuildCommitTx | channeld/commit_tx.c:111-467 | map entries and untrimmed HTLCs correspond one to one, each entry at its HTLC's output; the two balances, after the opener's fee, and the anchors are paid once each exactly if they are due; the outputs are within the funding if and only if the opener's balance and what is lost elsewhere cover the anchors, and leave the base fee if the opener can pay all |
| CommitTx.WithinFundingIff | common/initial_commit_tx.c:31-48 | that condition, for every transaction, over the total of its outputs |
| CommitTx.AddSecondStage | channeld/full_channel.c:314-377 | the k-th second-stage transaction spends the k-th HTLC output, a timeout for an offered HTLC and a success for a received one, none missing |
| CommitTx.UnpaidAnchorsOverspend | common/initial_commit_tx.c:31-48 | an opener that owns nothing pays for no anchor, and the outputs exceed the funding by one anchor, 330 satoshi |
| CommitTx.RunFeedsCommitTx | channeld/full_channel.c:412-422 | at every point of every run balances and committed HTLCs of a view are exactly the funding |
| Amounts.Product | common/amount.c:745-753 | the two words are the exact product |
| Amounts.DivideBits | common/amount.c:761-770 | the bit loop divides two words by one |
| Amounts.MulAddDivPortable | common/amount.c:743-770 | the exact quotient of a product plus an addend, or 2^64-1 if it does not fit |
| Amounts.FeerateInAsset | common/amount.c:785-795 | the least asset feerate worth at least the reference one, saturating at 2^32-1 |
| Amounts.MulDivIsExact | common/amount.c:609-621 | the quotient modulo 2^64: exact if and only if it fits |
| Amounts.SubFeeIsOptimal | common/amount.c:657-685 | for proportional fees up to 2^32-1-10^6 the assert never fires and the result is the largest output that fits with its fee |
| Amounts.SubFeeIsRightIff | common/amount.c:657-685 | for every fee: the largest output that fits is returned if and only if the divisor is not 0 and the first guess is that output or one less |
| Amounts.SubFeeWorksIff | common/amount.c:672-679 | where the quotient fits in 64 bits, it returns the largest output, and does not fail, if and only if the divisor does not wrap or nothing is left after the base fee |
| Amounts.WrongWithoutFailing | common/amount.c:672-685 | with a wrapped divisor of 1, 2^58 leaves 1 where 10^6 fits |
| Amounts.FeeIsExactIff | common/amount.c:623-642 | the fee is the plain one, or an overflow, if and only if the proportional fee fits in 64 bits or its remainder still overflows with the base |
| Amounts.ComparisonIsRightIff | common/amount.c:644-655 | the comparison is right about every amount given if and only if the proportional fee fits in 64 bits or output, base and its remainder still overflow |
| Amounts.WrappedFeePasses | common/amount.c:623-655 | an output outside that condition: its fee wraps, it passes the comparison and does not fit |
| Bech32.StepIsLinear | common/bech32.c:29-37 | a polymod step is linear in the bits that have not reached the top five |
| Bech32.ChecksumChecks | common/bech32.c:82-90 | data followed by its checksum leaves the constant of the encoding |
| Bech32.Encode | common/bech32.c:58-92 | succeeds exactly for a printable lower-case part, 5-bit data and a length within the limit; the text is part, separator, data, checksum |
| Bech32.Decode | common/bech32.c:94-155 | what a text decodes to, and every reason not to |
| Bech32.DecodeOfEncode | common/bech32.c:58-155 | decoding undoes encoding, for every non-empty human-readable part, data and encoding |
| Bech32Checks.StepIsInjective | common/bech32.c:29-37 | a polymod step maps different registers to different ones |
| Bech32Checks.BurstIsTold | common/bech32.c:29-37 | values that differ only within six neighbours leave different registers, whatever comes before and after |
| Bech32Checks.EncodeOfDecode | common/bech32.c:58-155 | encoding undoes decoding: every accepted text is, but for case, the encoding of what it decodes to |
| Bech32Checks.BurstIsDetected | common/bech32.c:94-155 | two texts accepted under one encoding, separator at the same place, that differ in at most six neighbouring characters after it differ in case only |
| Bech32Checks.KnownText | common/bech32.c:29-92 | the text `a12uel5l` of BIP 173 comes out, every generator taking part |
| Bech32Bits.PushBits | common/bech32_util.c:11-27 | the bits in groups of five, the last filled up with zeros |
| Bech32Bits.PullBits | common/bech32_util.c:34-60 | whole bytes, refused exactly if more than four bits are left or one of them is set |
| Bech32Bits.PullOfPush | common/bech32_util.c:11-60 | pushed bytes are pulled back |
| Bech32Bits.BytesComeBack | common/bech32_util.c:34-60 | what comes back is the bytes that went in |
| Bech32Bits.PushOfPull | common/bech32_util.c:11-60 | what can be pulled is what pushing gives |
| Bech32Bits.FromCharset | common/bech32_util.c:63-120 | which texts are accepted, and what they hold |
| Bech32Bits.ToCharset | common/bech32_util.c:133-148 | part, separator and the data's groups as characters |
| Bech32Bits.Reencode | common/bech32_util.c:63-148 | an accepted text is encoded again to its lower-case form if and only if no zero byte comes before the separator |
| BitGroups.ConvertBits | common/bech32.c:157-177 | with padding the same number shifted up to whole digits; without, the digits exactly if fewer bits than an input digit are left and all are zero |
| BitGroups.EightToFiveToEight | common/bech32.c:157-177 | eight to five to eight bits is the identity |
| Segwit.Encode | common/bech32.c:179-191 | succeeds exactly for a version up to 16 (a negative one if its low byte is a 5-bit value), a program of a length allowed for it and a printable part, within 90 characters; the text holds version and regrouped program in the encoding of the version |
| Segwit.Decode | common/bech32.c:193-210 | the version and program a text holds for the given part, or nothing exactly if it holds none |
| Segwit.EncodeThenDecode | common/bech32.c:179-210 | what can be encoded comes back, version and program, if and only if the part is not empty and the version not negative |
| Segwit.DecodeThenEncode | common/bech32.c:179-210 | every accepted address is encoded again to its lower-case form |

## Left out

- Fee updates (`update_fee`, `fee_states`): they run through the same states as block heights, which are modelled; affordability of the fee is a condition, not a run invariant.
- Splicing and inflights, shutdown, channel_ready, tx_abort, watchtower data, and the symmetric and taproot-covenant scripts.
- Signatures, keys, hashes and scripts: a signature verifies exactly for the transaction it was made for; a preimage opens its HTLC or does not; a script is named by what it pays, and ordered by a number.
- Persistence in lightningd: what is saved is modelled (`Persistence`), the database itself is not. `last_was_revoke` and the commitment numbers are kept with the peer.
- FullChannel.LiveChannel.AddHtlc: amounts are below 2^63, where its sums are exact; what they make of larger ones is stated by WireAmounts.RoomIsRightIff and not carried through a run.
- FullChannel.LiveChannel.FailHtlc: marks the HTLC failed in the same step, where the code's caller does it next.
- Channeld.LivePeer.Reconnect: does not model the data-loss fields, because they are checks of secrets.
- TwoPeers.ReconnectionGoesThrough: not while a block height is on its way, because a leased channel sends its height again whether it was lost or not; commitment numbers fit in 64 bits; the saved HTLCs are let back in, for which Readmission.ReadmittedIff has the exact condition.
- Reconnects.ReconnectKeepsInv: under the same restriction on heights; what is sent again may come in any order, where the code has removals before additions and those by id.
- Readmission.ReadmittedIff: lane 0 holds no more than `max_supply`, so that no 64-bit sum overflows.
- Restoring.NoBalanceWraps: amounts and lane totals are below 2^63; balances of 2^63 and more, which the daemon asserts against, are not modelled.
- Quiescence.QuiescentPeersAgree: starts from two idle peers; leaving quiescence after a splice is not modelled.
- Swap requests travel outside the model: a peer may ask for, accept or give up a swap at any time; only the commitment that carries it is a message.
- Channel configuration, trimming and fee formulas are parameters (`Admission.Config`, `CommitTx.Spec`).
- Floating-point amounts, varint, bigsize, short channel ids and other small formats: easy members only.
