/** The channel daemon's handlers of commitments, revocations and reestablishment, over the live channel. */
module Channeld {
  import opened Sides
  import opened HtlcStates
  import opened ChannelState
  import opened Ledger
  import opened Admission
  import opened Runs
  import opened Solvency
  import opened Messages
  import opened Mirrors
  import opened FullChannel
  import opened Links
  import opened TwoPeers
  import opened Reestablish

  /** A step that finds nothing to move leaves the channel as it is. */
  lemma NothingMoves(c: Channel, step: Step)
    requires c.WellFormed() && !SomethingMoves(c, step)
    ensures Change(c, step) == c
  {
    assert StepHtlcs(c.htlcs, step) == c.htlcs;
    forall lane: nat, p: Side | lane < c.Lanes() ensures StepOwed(c, step, lane, p) == c.Owed(step.Changes(), lane, p) {
      assert StepTable(c.htlcs, step, lane, p) == map[];
    }
    hide StepOwed, StepHtlcs;
    var v := step.Changes();
    forall lane: nat | lane < c.Lanes() ensures StepView(c, step)[lane] == c.view.At(v)[lane] {
      assert StepOwed(c, step, lane, Local) == c.Owed(v, lane, Local);
      assert StepOwed(c, step, lane, Remote) == c.Owed(v, lane, Remote);
    }
    assert StepView(c, step) == c.view.At(v);
  }

  class LivePeer {
    const channel: LiveChannel
    var next: Pair<nat>
    var revs: nat
    var lastWasRevoke: bool
    var lastEmpty: nat
    ghost var base: Balances

    /** What the peer is, as a value. */
    ghost function State(): Peer
      reads this, channel
    {
      Peer(Node(channel.State(), next.remote == revs + 2, base), next, revs, lastWasRevoke)
    }

    ghost predicate Valid()
      reads this, channel
    {
      && channel.Valid() && Inv(State().node)
      && (next.remote == revs + 1 || next.remote == revs + 2)
    }

    constructor (channel: LiveChannel, ghost base: Balances)
      requires channel.Valid() && Initial(Node(channel.State(), false, base))
      ensures Valid() && NewPeer(State()) && this.channel == channel && lastEmpty == 0
    {
      InitialInv(Node(channel.State(), false, base));
      this.channel := channel;
      next, revs, lastWasRevoke, lastEmpty := Pair(1, 1), 0, false, 0;
      this.base := base;
    }

    /** `send_commit`: nothing while a revocation is outstanding, nothing if there is nothing to commit. */
    method SendCommit(cfg: Config) returns (msg: Option<Msg>)
      requires Valid()
      modifies this, channel
      ensures Valid()
      ensures msg.Some? <==> Enabled(cfg, old(State()).node, Action.SendCommit)
      ensures msg.None? ==> State() == old(State())
      ensures msg.Some? ==> && State() == After(old(State()), Action.SendCommit)
                            && [msg.value] == Message(old(State()).node, Action.SendCommit)
    {
      hide Inv, ContentOf, NoUnderflow, Change, LiveChannel.Valid, SomethingMoves;
      ghost var p := State();
      assert p.node.chan.WellFormed() by { InvIsWellFormed(p.node); }
      if revs != next.remote - 1 { return None; }
      SendCommitKeepsInv(p.node);
      var ok, changed := channel.SendingCommit();
      if !changed {
        NothingMoves(p.node.chan, Step.SendingCommit);
        return None;
      }
      base := BaseAfterStep(p.node.chan, base, Step.SendingCommit);
      next := Pair(next.local, next.remote + 1);
      lastWasRevoke := false;
      var swap := if channel.swap.Some? && channel.swap.value.state == SENT_ADD_COMMIT
        then Some(channel.swap.value.(state := RCVD_ADD_HTLC)) else None;
      var after := Channel(channel.htlcs, channel.view, Slot(channel.swap), channel.req, channel.heights,
          channel.opener);
      msg := Some(Commitment(swap, ContentOf(after, Remote)));
    }

    /** `handle_peer_revoke_and_ack`: refused unless a commitment of ours waits for it. */
    method HandleRevokeAndAck(cfg: Config) returns (ok: bool)
      requires Valid()
      modifies this, channel
      ensures Valid()
      ensures ok == Accepts(cfg, old(State()), Revocation)
      ensures State() == if ok then After(old(State()), RecvRevoke) else old(State())
    {
      hide Inv, Change, LiveChannel.Valid, SomethingMoves;
      ghost var p := State();
      assert p.node.chan.WellFormed() by { InvIsWellFormed(p.node); }
      if revs != next.remote - 2 { return false; }
      RecvRevokeKeepsInv(p.node);
      var _ := channel.RcvdRevokeAndAck();
      ghost var c := channel.State();
      revs := revs + 1;
      var _ := channel.SwapFinished();
      base := BaseAfterDone(c, BaseAfterStep(p.node.chan, base, RcvdRevoke));
      return true;
    }

    /** The commitment changes nothing in our view. */
    ghost predicate Empty(m: Msg)
      reads this, channel
      requires m.Commitment?
    {
      !SomethingMoves(TakeSwap(channel.State(), m.swap), RcvdCommit)
    }

    /**
      `handle_peer_commit_sig` and `send_revocation`.  `good` is the verdict on the signature, which holds
      for the transaction it was made for and no other.  A commitment without changes is refused if it is
      the first one, or if the one before it had none either.
     */
    method HandleCommitSig(cfg: Config, m: Msg, good: bool) returns (reply: Option<Msg>)
      requires Valid() && m.Commitment? && (m.swap.Some? ==> m.swap.value.state == RCVD_ADD_HTLC)
      requires good == SameContent(m.signed, ContentOf(Recv(channel.State(), m), Local))
      modifies this, channel
      ensures reply.Some? <==>
              Accepts(cfg, old(State()), m) && !(old(Empty(m)) && old(lastEmpty) == old(next).local - 1)
      ensures reply.Some? ==> Valid() && State() == After(old(State()), ActionFor(m)) && [reply.value] == Reply(m)
      ensures reply.Some? ==> lastEmpty == if old(Empty(m)) then old(next).local else old(lastEmpty)
    {
      hide Inv, Change, LiveChannel.Valid, SomethingMoves, SwapCheck, ContentOf, NoUnderflow;
      hide BaseAfterStep, BaseAfterDone, SwapDone, SameContent;
      ghost var p := State();
      assert p.node.chan.WellFormed() by { InvIsWellFormed(p.node); }
      if m.swap.Some? {
        var ok := channel.TakePeerSwap(cfg, m.swap.value);
        if !ok { return None; }
      }
      assert Enabled(cfg, p.node, RecvCommit(m.swap));
      ActionKeepsInv(cfg, p.node, RecvCommit(m.swap));
      ghost var n := BeforeCommit(p.node, RecvCommit(m.swap));
      assert channel.State() == n.chan;
      var ok, changed := channel.RcvdCommit();
      ghost var mid := Committing(n, RcvdCommit);
      assert channel.State() == mid.chan;
      if !changed {
        if lastEmpty == next.local - 1 { return None; }
        lastEmpty := next.local;
      }
      if !good { return None; }
      next := Pair(next.local + 1, next.remote);
      var _ := channel.SendingRevokeAndAck();
      ghost var c := channel.State();
      var _ := channel.SwapFinished();
      base := BaseAfterDone(c, BaseAfterStep(mid.chan, mid.base, SendingRevoke));
      lastWasRevoke := true;
      reply := Some(Revocation);
    }

    /** `peer_reconnect`, the part that decides what to send again. */
    method Reconnect(nextCommitment: nat, nextRevocation: nat) returns (answer: Answer)
      requires next.local < U64 && next.remote < U64
      ensures answer == Answering(NumbersOf(State()), nextCommitment, nextRevocation)
    {
      var resendRevoke, resendCommit := false, false;
      if nextRevocation == Minus(next.local, 2) {
        if next.local < 2 { return Refuse; }
        resendRevoke := true;
      } else if nextRevocation < Minus(next.local, 1) || nextRevocation > Minus(next.local, 1) {
        return Refuse;
      }
      if nextCommitment == Minus(next.remote, 1) {
        if nextCommitment == 0 { return Refuse; }
        resendCommit := true;
      } else if nextCommitment != next.remote {
        return Refuse;
      }
      var kinds := [];
      if resendRevoke && !lastWasRevoke {
        kinds := kinds + [RevokeAck];
      }
      if resendCommit {
        kinds := kinds + [CommitSig];
      }
      if resendRevoke && lastWasRevoke {
        kinds := kinds + [RevokeAck];
      }
      return Resend(kinds);
    }
  }

  lemma InvIsWellFormed(n: Node)
    requires Inv(n)
    ensures n.chan.WellFormed()
  {
  }
}
