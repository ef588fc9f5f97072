/**
  Two peers running the update, commit and revoke steps over two first-in first-out queues, and what
  they are bound to agree on: the commitment transactions, and what to send again after a disconnection.
 */
module TwoPeers {
  import opened Sides
  import opened HtlcStates
  import opened ChannelState
  import opened Ledger
  import opened Admission
  import opened Runs
  import opened Solvency
  import opened Persistence
  import opened Sums
  import opened Messages
  import opened Mirrors
  import opened Links
  import opened Reestablish
  import opened Replays
  import opened Reconnects

  datatype Event =
    | Acts(e: Side, a: Action)     // `e` does something of its own
    | Receives(e: Side)            // `e` processes the oldest message sent to it
    | Reconnects(local: Resumption, remote: Resumption)   // the connection is lost, and made again

  /** What a peer does on its own account, rather than on receiving a message. */
  predicate OwnAction(c: Channel, a: Action) {
    match a
    case Offer(k, _) => k.owner.Local?
    case Settle(k, _) => k.owner.Remote?
    case UpdateHeight(_) => c.opener.Local?
    case RecvRevoke => false
    case RecvCommit(_) => false
    case _ => true
  }

  /** The message a peer's own action puts on the wire. */
  ghost function Message(n: Node, a: Action): seq<Msg>
    requires n.chan.Sized()
  {
    match a
    case Offer(k, h) => [Add(k.id, h)]
    case Settle(k, fulfil) => [Remove(k.id, fulfil)]
    case UpdateHeight(height) => [Height(height)]
    case SendCommit =>
      var after := Next(n, a).chan;
      [Commitment(SwapTold(after), ContentOf(after, Remote))]
    case _ => []
  }

  /** What processing a message does. */
  function ActionFor(m: Msg): Action {
    match m
    case Add(id, h) => Offer(Key(Remote, id), h.(state := RCVD_ADD_HTLC))
    case Remove(id, fulfil) => Settle(Key(Local, id), fulfil)
    case Height(height) => UpdateHeight(height)
    case Commitment(swap, _) => RecvCommit(swap)
    case Revocation => RecvRevoke
  }

  function Reply(m: Msg): seq<Msg> {
    if m.Commitment? then [Revocation] else []
  }

  /**
    The receiver's checks.  The signature of a commitment is good exactly if it was made for the
    transaction the receiver builds for itself.  A message that is refused ends the connection.
   */
  ghost predicate Accepts(cfg: Config, p: Peer, m: Msg)
    requires p.node.chan.Sized()
  {
    && Enabled(cfg, p.node, ActionFor(m))
    && (m.Height? ==> p.node.chan.opener.Remote?)
    && (m.Commitment? ==> SameContent(m.signed, ContentOf(Recv(p.node.chan, m), Local)))
  }

  ghost function After(p: Peer, a: Action): Peer
    requires p.node.chan.Sized() && (a.Settle? ==> CanSettle(p.node.chan, a.k))
  {
    var n := Next(p.node, a);
    match a
    case SendCommit => Peer(n, Pair(p.next.local, p.next.remote + 1), p.revs, false)
    case RecvCommit(_) => Peer(n, Pair(p.next.local + 1, p.next.remote), p.revs, true)
    case RecvRevoke => Peer(n, p.next, p.revs + 1, p.lastWasRevoke)
    case _ => p.(node := n)
  }

  /** A step of one end. */
  ghost predicate EndStep(cfg: Config, e: Side, s: Link, ev: Event, s': Link)
    requires !ev.Reconnects?
  {
    var p, o, out, into := s.End(e), s.End(e.Other()), s.Sent(e), s.Sent(e.Other());
    && p.node.chan.Sized()
    && match ev
       case Acts(_, a) =>
         && OwnAction(p.node.chan, a) && Enabled(cfg, p.node, a)
         && s' == LinkFrom(e, After(p, a), o, out + Message(p.node, a), into)
       case Receives(_) =>
         && into != [] && Accepts(cfg, p, into[0])
         && s' == LinkFrom(e, After(p, ActionFor(into[0])), o, out + Reply(into[0]), into[1..])
  }

  /** Everything on the wire is lost; both ends start again and send again what the other's numbers ask for. */
  ghost predicate Reconnection(s: Link, x: Resumption, y: Resumption, s': Link) {
    && NoHeights(s.fromLocal) && NoHeights(s.fromRemote)
    && Resumes(s.local, s.remote, x) && Resumes(s.remote, s.local, y)
    && s' == Link(Resumed(s.local, x), Resumed(s.remote, y), SentAgain(s.local, x), SentAgain(s.remote, y))
  }

  ghost predicate LinkStep(cfgs: Pair<Config>, s: Link, ev: Event, s': Link) {
    match ev
    case Reconnects(x, y) => Reconnection(s, x, y, s')
    case _ => EndStep(cfgs.At(ev.e), ev.e, s, ev, s')
  }

  ghost predicate NewPeer(p: Peer) {
    Initial(p.node) && p.next == Pair(1, 1) && p.revs == 0
  }

  /** A new channel, both ends agreeing on it, nothing on the wire. */
  ghost predicate NewLink(s: Link) {
    && NewPeer(s.local) && NewPeer(s.remote)
    && IsMirror(s.local.node.chan, s.remote.node.chan)
    && s.fromLocal == [] && s.fromRemote == []
  }

  ghost predicate LinkRun(cfgs: Pair<Config>, ss: seq<Link>, evs: seq<Event>) {
    && |ss| == |evs| + 1
    && NewLink(ss[0])
    && forall i: nat :: i < |evs| ==> LinkStep(cfgs, ss[i], evs[i], ss[i + 1])
  }

  // ---- Sending keeps the two ends linked

  lemma RecvKeepsCarried(c: Channel, x: Msg)
    requires c.Sized()
    ensures Carried(Recv(c, x)) == Carried(c)
  {
    hide StepView, StepHeights, StepHtlcs;
  }

  lemma {:induction false} DeliverKeepsCarried(c: Channel, q: seq<Msg>)
    requires c.Sized()
    ensures Carried(Deliver(c, q)) == Carried(c)
    decreases |q|
  {
    hide Carried, Recv;
    if q != [] {
      RecvKeepsCarried(c, q[0]);
      DeliverKeepsCarried(Recv(c, q[0]), q[1..]);
    }
  }

  lemma SendKeepsLinked(c: Channel, d: Channel, out: seq<Msg>, into: seq<Msg>, m: Msg)
    requires Linked(c, d, out, into) && FitsAll(c, into) && FitsAll(d, out)
    requires CanSend(c, m) && (m.Commitment? ==> m.swap == Carried(c))
    requires forall x :: x in into ==> !Clash(m, x)
    ensures Linked(Send(c, m), d, out + [m], into) && FitsAll(Send(c, m), into) && FitsAll(d, out + [m])
  {
    hide IsMirror, Deliver, FitsAll, CanSend, Fits, Send, Recv, Carried, Clash;
    SendThenDeliver(c, m, into);
    DeliverKeepsCarried(c, into);
    SendMirrors(Deliver(c, into), Deliver(d, out), m);
    DeliverOneMore(d, out, m);
  }

  // ---- A swap we accept, or ask for, is not on the wire yet

  function WithOwn(c: Channel, s: Swap): Channel {
    c.(swaps := Pair(Some(s), c.swaps.remote))
  }

  lemma OwnKeepsOwed(c: Channel, s: Swap, step: Step, lane: nat, p: Side)
    requires c.Sized() && lane < c.Lanes() && c.swaps.local.None? && s.state == SENT_ADD_HTLC && !step.SendingCommit?
    ensures StepOwed(WithOwn(c, s), step, lane, p) == StepOwed(c, step, lane, p)
  {
  }

  lemma OwnThenStep(c: Channel, s: Swap, step: Step)
    requires c.Sized() && c.swaps.local.None? && s.state == SENT_ADD_HTLC && !step.SendingCommit?
    ensures Change(WithOwn(c, s), step) == WithOwn(Change(c, step), s)
  {
    hide StepHtlcs, StepHeights, StepOwed;
    forall lane: nat, p: Side | lane < c.Lanes()
      ensures StepOwed(WithOwn(c, s), step, lane, p) == StepOwed(c, step, lane, p)
    {
      OwnKeepsOwed(c, s, step, lane, p);
    }
    SameOwedSameView(c, WithOwn(c, s), step);
  }

  lemma OwnThenRecv(c: Channel, s: Swap, x: Msg)
    requires c.Sized() && c.swaps.local.None? && s.state == SENT_ADD_HTLC
    ensures Recv(WithOwn(c, s), x) == WithOwn(Recv(c, x), s) && Recv(c, x).swaps.local.None?
    ensures Fits(WithOwn(c, s), x) == Fits(c, x)
  {
    match x
    case Commitment(swap, _) =>
      OwnThenStep(TakeSwap(c, swap), s, RcvdCommit);
      hide StepView, StepHeights, StepHtlcs;
    case Revocation =>
      OwnThenStep(c, s, RcvdRevoke);
      hide StepView, StepHeights, StepHtlcs;
    case _ =>
  }

  lemma {:induction false} OwnThenDeliver(c: Channel, s: Swap, q: seq<Msg>)
    requires c.Sized() && c.swaps.local.None? && s.state == SENT_ADD_HTLC
    ensures Deliver(WithOwn(c, s), q) == WithOwn(Deliver(c, q), s) && Deliver(c, q).swaps.local.None?
    ensures FitsAll(WithOwn(c, s), q) == FitsAll(c, q)
    decreases |q|
  {
    hide Recv, Fits;
    if q != [] {
      OwnThenRecv(c, s, q[0]);
      OwnThenDeliver(Recv(c, q[0]), s, q[1..]);
    }
  }

  /** Equal up to the swap asked for, which the peer does not see. */
  predicate SameButReq(c: Channel, d: Channel) {
    d == c.(req := d.req)
  }

  lemma ReqKeepsOwed(c: Channel, d: Channel, step: Step, lane: nat, p: Side)
    requires SameButReq(c, d) && c.Sized() && lane < c.Lanes()
    ensures StepOwed(d, step, lane, p) == StepOwed(c, step, lane, p)
  {
  }

  lemma ReqThenStep(c: Channel, d: Channel, step: Step)
    requires SameButReq(c, d) && c.Sized()
    ensures SameButReq(Change(c, step), Change(d, step))
  {
    hide StepHtlcs, StepHeights, StepOwed;
    forall lane: nat, p: Side | lane < c.Lanes() ensures StepOwed(d, step, lane, p) == StepOwed(c, step, lane, p) {
      ReqKeepsOwed(c, d, step, lane, p);
    }
    SameOwedSameView(c, d, step);
  }

  lemma ReqThenRecv(c: Channel, d: Channel, x: Msg)
    requires SameButReq(c, d) && c.Sized()
    ensures SameButReq(Recv(c, x), Recv(d, x)) && Fits(c, x) == Fits(d, x)
  {
    match x
    case Commitment(swap, _) =>
      ReqThenStep(TakeSwap(c, swap), TakeSwap(d, swap), RcvdCommit);
      hide Change;
    case Revocation =>
      ReqThenStep(c, d, RcvdRevoke);
      hide Change;
    case _ =>
  }

  lemma {:induction false} ReqThenDeliver(c: Channel, d: Channel, q: seq<Msg>)
    requires SameButReq(c, d) && c.Sized()
    ensures SameButReq(Deliver(c, q), Deliver(d, q)) && FitsAll(c, q) == FitsAll(d, q)
    decreases |q|
  {
    hide Recv, Fits, SameButReq;
    if q != [] {
      assert d.Sized() by { SizedButReq(c, d); }
      ReqThenRecv(c, d, q[0]);
      ReqThenDeliver(Recv(c, q[0]), Recv(d, q[0]), q[1..]);
    }
  }

  lemma SizedButReq(c: Channel, d: Channel)
    requires SameButReq(c, d) && c.Sized()
    ensures d.Sized()
  {
  }

  // ---- Every step keeps the invariant

  /** An own action that is told the peer does what sending its message does. */
  lemma OwnActionSends(cfg: Config, n: Node, a: Action)
    requires Inv(n) && Enabled(cfg, n, a) && OwnAction(n.chan, a) && Message(n, a) != []
    ensures var m := Message(n, a)[0];
            && Message(n, a) == [m]
            && Next(n, a).chan == Send(n.chan, m) && CanSend(n.chan, m)
            && m.Commitment? == a.SendCommit? && !m.Revocation?
            && (m.Commitment? ==>
                  && m.swap == Carried(n.chan) == SwapTold(Next(n, a).chan)
                  && m.signed == ContentOf(Next(n, a).chan, Remote))
  {
    if a.Offer? {
      hide AllSolvent, Explained, AddResult;
      AcceptedLeavesRoom(cfg, n.chan, a.k, a.h, true);
    }
    hide AllSolvent, Explained, AddResult, SwapCheck, StepView, StepHeights, StepHtlcs, ContentOf;
  }

  function NumbersAfter(n: Numbers, a: Action): Numbers {
    match a
    case SendCommit => Numbers(Pair(n.next.local, n.next.remote + 1), n.revs, true, false)
    case RecvCommit(_) => n.(next := Pair(n.next.local + 1, n.next.remote), lastWasRevoke := true)
    case RecvRevoke => n.(revs := n.revs + 1, awaiting := false)
    case _ => n
  }

  lemma AfterNumbers(p: Peer, a: Action)
    requires p.node.chan.Sized() && (a.Settle? ==> CanSettle(p.node.chan, a.k))
    ensures After(p, a).node == Next(p.node, a)
    ensures NumbersOf(After(p, a)) == NumbersAfter(NumbersOf(p), a)
  {
    hide Change, SwapDone;
  }

  lemma NumberedAfterSend(p: Numbers, o: Numbers, ks: seq<Kind>, into: seq<Kind>)
    requires Numbered(p, o, ks) && Numbered(o, p, into) && !p.awaiting
    ensures Numbered(NumbersAfter(p, SendCommit), o, ks + [CommitSig]) && Numbered(o, NumbersAfter(p, SendCommit), into)
  {
  }

  lemma NumberedAfterRevocation(p: Numbers, o: Numbers, ks: seq<Kind>, into: seq<Kind>)
    requires Numbered(p, o, ks) && into != [] && into[0].RevokeAck? && Numbered(o, p, into) && p.awaiting
    ensures Numbered(NumbersAfter(p, RecvRevoke), o, ks) && Numbered(o, NumbersAfter(p, RecvRevoke), into[1..])
  {
    assert into == [into[0]] + into[1..];
  }

  lemma NumberedAfterCommitment(p: Numbers, o: Numbers, ks: seq<Kind>, into: seq<Kind>, a: Action)
    requires Numbered(p, o, ks) && into != [] && into[0].CommitSig? && Numbered(o, p, into) && a.RecvCommit?
    ensures Numbered(NumbersAfter(p, a), o, ks + [RevokeAck]) && Numbered(o, NumbersAfter(p, a), into[1..])
  {
    assert into == [into[0]] + into[1..];
  }

  lemma SendCounted(p: Peer, o: Peer, out: seq<Msg>, into: seq<Msg>, a: Action, m: Msg)
    requires p.node.chan.Sized() && (a.Settle? ==> CanSettle(p.node.chan, a.k))
    requires !a.RecvCommit? && !a.RecvRevoke?
    requires Counted(p, o, out) && Counted(o, p, into) && m.Commitment? == a.SendCommit? && !m.Revocation?
    requires a.SendCommit? ==> !p.node.awaiting
    ensures Counted(After(p, a), o, out + [m]) && Counted(o, After(p, a), into)
  {
    hide Numbered, After, Kinds;
    KindsAppend(out, [m]);
    KindsOfOne(m);
    AfterNumbers(p, a);
    if a.SendCommit? {
      NumberedAfterSend(NumbersOf(p), NumbersOf(o), Kinds(out), Kinds(into));
    } else {
      assert Kinds(out) + [] == Kinds(out);
    }
  }

  lemma SendKeepsTold(c: Channel, m: Msg)
    requires c.Sized() && !m.Commitment?
    ensures SwapTold(Send(c, m)) == SwapTold(c)
  {
    hide StepView, StepHeights, StepHtlcs;
  }

  lemma RecvKeepsTold(c: Channel, m: Msg)
    requires c.Sized() && !m.Revocation?
    ensures SwapTold(Recv(c, m)) == SwapTold(c)
  {
    hide StepView, StepHeights, StepHtlcs;
  }

  lemma SendKeepsSigned(c: Channel, out: seq<Msg>, m: Msg)
    requires c.Sized() && CanSend(c, m) && Signed(c, out)
    requires m.Commitment? ==> && m.signed == ContentOf(Send(c, m), Remote) && m.swap == SwapTold(Send(c, m))
                               && Count(out, CommitSig) == 0
    ensures Signed(Send(c, m), out + [m])
  {
    hide CanSend, Send, ContentOf, Count, SwapTold;
    forall x | x in out + [m] && x.Commitment?
      ensures x.signed == ContentOf(Send(c, m), Remote) && x.swap == SwapTold(Send(c, m))
    {
      if m.Commitment? {
        if x in out { NoneCounted(out, CommitSig, x); }
      } else {
        SendKeepsContent(c, m, Remote);
        SendKeepsTold(c, m);
      }
    }
  }

  lemma NoClash(m: Msg, into: seq<Msg>)
    requires m.Commitment? ==> Count(into, RevokeAck) == 0
    requires m.Revocation? ==> Count(into, CommitSig) == 0
    ensures forall x :: x in into ==> !Clash(m, x)
  {
    hide Count;
    forall x | x in into ensures !Clash(m, x) {
      if m.Commitment? { NoneCounted(into, RevokeAck, x); }
      if m.Revocation? { NoneCounted(into, CommitSig, x); }
    }
  }

  lemma SendKeepsInv(cfg: Config, p: Peer, o: Peer, out: seq<Msg>, into: seq<Msg>, a: Action)
    requires InvFrom(p, o, out, into) && Enabled(cfg, p.node, a) && OwnAction(p.node.chan, a)
             && Message(p.node, a) != []
    ensures InvFrom(After(p, a), o, out + Message(p.node, a), into)
  {
    hide Enabled, Message, Inv, Counted, Next, After, Send, CanSend, Carried, FitsAll, Linked, ContentOf, Signed, Count,
         Clash, SwapTold, OwnAction, NumbersOf, NumbersAfter;
    InvIsSized(p.node);
    EnabledMeans(cfg, p.node, a);
    OwnActionSends(cfg, p.node, a);
    var m := Message(p.node, a)[0];
    ActionKeepsInv(cfg, p.node, a);
    OneOutstanding(p, o, out, into);
    SendCounted(p, o, out, into, a, m);
    AfterNumbers(p, a);
    NoClash(m, into);
    SendKeepsLinked(p.node.chan, o.node.chan, out, into, m);
    SendKeepsSigned(p.node.chan, out, m);
  }

  lemma InvIsSized(n: Node)
    requires Inv(n)
    ensures n.chan.Sized()
  {
  }

  lemma EnabledMeans(cfg: Config, n: Node, a: Action)
    requires n.chan.Sized() && Enabled(cfg, n, a)
    ensures a.Settle? ==> CanSettle(n.chan, a.k)
    ensures a.SendCommit? ==> !n.awaiting
    ensures OwnAction(n.chan, a) ==> !a.RecvCommit? && !a.RecvRevoke?
  {
  }

  /** Accepting a swap, asking for one or giving up on one: nothing is sent. */
  lemma SilentKeepsLinked(cfg: Config, c: Channel, d: Channel, n: Node, out: seq<Msg>, into: seq<Msg>, a: Action)
    requires n.chan == c && Inv(n) && Enabled(cfg, n, a) && OwnAction(c, a) && Message(n, a) == []
    requires Linked(c, d, out, into) && FitsAll(c, into)
    ensures Linked(Next(n, a).chan, d, out, into) && FitsAll(Next(n, a).chan, into)
    ensures ContentOf(Next(n, a).chan, Remote) == ContentOf(c, Remote) && SwapTold(Next(n, a).chan) == SwapTold(c)
  {
    hide AllSolvent, Explained, AddResult, SwapAffordable;
    var c' := Next(n, a).chan;
    assert a.AcceptSwap? || SameButReq(c, c');
    if a.AcceptSwap? {
      assert c' == WithOwn(c, a.swap) && c.swaps.local.None? && a.swap.state == SENT_ADD_HTLC;
      hide Enabled, Next, Deliver;
      OwnThenDeliver(c, a.swap, into);
      OwnSwapMirrors(Deliver(c, into), Deliver(d, out), a.swap);
    } else {
      assert c'.Sized();
      hide Enabled, Next, Deliver;
      ReqThenDeliver(c, c', into);
      ReqMirrors(Deliver(c, into), Deliver(c', into), Deliver(d, out));
    }
  }

  lemma OwnSwapMirrors(c: Channel, d: Channel, s: Swap)
    requires IsMirror(c, d) && c.swaps.local.None? && s.state == SENT_ADD_HTLC
    ensures IsMirror(WithOwn(c, s), d)
  {
    FlippedViewsMirror(c, WithOwn(c, s), d);
    hide MirrorViews, MirrorHtlcs, MirrorHeights;
  }

  lemma ReqMirrors(c: Channel, c': Channel, d: Channel)
    requires IsMirror(c, d) && SameButReq(c, c')
    ensures IsMirror(c', d)
  {
    FlippedViewsMirror(c, c', d);
    hide MirrorViews, MirrorHtlcs, MirrorHeights;
  }

  lemma SilentKeepsInv(cfg: Config, p: Peer, o: Peer, out: seq<Msg>, into: seq<Msg>, a: Action)
    requires InvFrom(p, o, out, into) && Enabled(cfg, p.node, a) && OwnAction(p.node.chan, a)
             && Message(p.node, a) == []
    ensures InvFrom(After(p, a), o, out + Message(p.node, a), into)
  {
    assert NumbersAfter(NumbersOf(p), a) == NumbersOf(p);
    assert !a.Settle?;
    hide Inv, Enabled, Linked, FitsAll, ContentOf, Kinds, Numbered, Message, After, Next;
    SilentKeepsLinked(cfg, p.node.chan, o.node.chan, p.node, out, into, a);
    ActionKeepsInv(cfg, p.node, a);
    assert out + Message(p.node, a) == out;
    AfterNumbers(p, a);
  }

  /** Processing a message does what receiving it does, and for a commitment what sending the revocation does. */
  lemma ProcessIsRecv(cfg: Config, p: Peer, m: Msg)
    requires Inv(p.node) && Accepts(cfg, p, m) && Fits(p.node.chan, m)
    ensures Next(p.node, ActionFor(m)).chan ==
            if m.Commitment? then Send(Recv(p.node.chan, m), Revocation) else Recv(p.node.chan, m)
  {
    hide AllSolvent, Explained, AddResult, SwapCheck, StepView, StepHeights, StepHtlcs, ContentOf;
  }

  lemma KindsFirst(q: seq<Msg>)
    requires q != []
    ensures Kinds(q) == KindOf(q[0]) + Kinds(q[1..])
  {
  }

  lemma KindsOfOne(m: Msg)
    ensures Kinds([m]) == KindOf(m)
    ensures Kinds(Reply(m)) == if m.Commitment? then [RevokeAck] else []
  {
  }

  lemma ReceiveNumbered(p: Numbers, o: Numbers, ks: seq<Kind>, into: seq<Kind>, m: Msg)
    requires Numbered(p, o, ks) && Numbered(o, p, KindOf(m) + into) && (m.Revocation? ==> p.awaiting)
    ensures var p' := NumbersAfter(p, ActionFor(m));
            Numbered(p', o, ks + if m.Commitment? then [RevokeAck] else []) && Numbered(o, p', into)
  {
    hide Numbered, CountOf;
    assert ks + [] == ks;
    var all := KindOf(m) + into;
    if m.Commitment? {
      assert all[1..] == into;
      NumberedAfterCommitment(p, o, ks, all, ActionFor(m));
    } else if m.Revocation? {
      assert all[1..] == into;
      NumberedAfterRevocation(p, o, ks, all);
    } else {
      assert all == into;
    }
  }

  lemma ReceiveCounted(p: Peer, o: Peer, out: seq<Msg>, into: seq<Msg>)
    requires p.node.chan.Sized() && into != [] && (into[0].Remove? ==> CanSettle(p.node.chan, ActionFor(into[0]).k))
    requires Counted(p, o, out) && Counted(o, p, into) && (into[0].Revocation? ==> p.node.awaiting)
    ensures var p' := After(p, ActionFor(into[0]));
            Counted(p', o, out + Reply(into[0])) && Counted(o, p', into[1..])
  {
    var m := into[0];
    KindsFirst(into);
    hide Numbered, After, Kinds, NumbersAfter, KindOf;
    KindsAppend(out, Reply(m));
    KindsOfOne(m);
    AfterNumbers(p, ActionFor(m));
    ReceiveNumbered(NumbersOf(p), NumbersOf(o), Kinds(out), Kinds(into[1..]), m);
  }

  lemma ReceiveKeepsSigned(c: Channel, out: seq<Msg>, m: Msg)
    requires c.Sized() && Fits(c, m) && Signed(c, out)
    requires m.Revocation? ==> Count(out, CommitSig) == 0
    ensures Signed(Recv(c, m), out)
  {
    hide Fits, Recv, ContentOf, Count, SwapTold;
    forall x | x in out && x.Commitment?
      ensures x.signed == ContentOf(Recv(c, m), Remote) && x.swap == SwapTold(Recv(c, m))
    {
      if m.Revocation? {
        NoneCounted(out, CommitSig, x);
      } else {
        RecvKeepsContent(c, m, Remote);
        RecvKeepsTold(c, m);
      }
    }
  }

  /** Taking the first message in and, if it is a commitment, sending the revocation. */
  lemma ReceiveKeepsLinked(c: Channel, d: Channel, out: seq<Msg>, into: seq<Msg>)
    requires into != [] && Linked(c, d, out, into) && FitsAll(c, into) && FitsAll(d, out) && Signed(c, out)
    requires Count(into, CommitSig) <= 1 && (into[0].Revocation? ==> Count(out, CommitSig) == 0)
    ensures var m := into[0];
            var c' := if m.Commitment? then Send(Recv(c, m), Revocation) else Recv(c, m);
            && Linked(c', d, out + Reply(m), into[1..]) && FitsAll(c', into[1..]) && FitsAll(d, out + Reply(m))
            && Signed(c', out + Reply(m))
  {
    var m, rest := into[0], into[1..];
    assert Linked(Recv(c, m), d, out, rest) && FitsAll(Recv(c, m), rest) && Fits(c, m);
    ReceiveKeepsSigned(c, out, m);
    hide Linked, FitsAll, Signed, Recv, Send, Fits;
    if m.Commitment? {
      AtMostOne(into, CommitSig);
      NoClash(Revocation, rest);
      SendKeepsLinked(Recv(c, m), d, out, rest, Revocation);
      SendKeepsSigned(Recv(c, m), out, Revocation);
    } else {
      assert out + Reply(m) == out;
    }
  }

  lemma ReceiveKeepsInv(cfg: Config, p: Peer, o: Peer, out: seq<Msg>, into: seq<Msg>)
    requires InvFrom(p, o, out, into) && into != [] && Accepts(cfg, p, into[0])
    ensures InvFrom(After(p, ActionFor(into[0])), o, out + Reply(into[0]), into[1..])
  {
    hide Enabled, Inv, Next, After, Send, Recv, Linked, Accepts, ActionFor, Fits, Signed, Counted, Count, Reply,
         NumbersOf, NumbersAfter;
    var m := into[0];
    var a := ActionFor(m);
    InvIsSized(p.node);
    AcceptedMeans(cfg, p, m);
    assert Fits(p.node.chan, m);
    hide FitsAll;
    ProcessIsRecv(cfg, p, m);
    ActionKeepsInv(cfg, p.node, a);
    OneOutstanding(o, p, into, out);
    OneOutstanding(p, o, out, into);
    RevocationIsCounted(into);
    ReceiveCounted(p, o, out, into);
    AfterNumbers(p, a);
    ReceiveKeepsLinked(p.node.chan, o.node.chan, out, into);
    SignedRest(o.node.chan, into);
  }

  lemma SignedRest(c: Channel, q: seq<Msg>)
    requires Signed(c, q) && q != []
    ensures Signed(c, q[1..])
  {
    hide ContentOf, SwapTold;
  }

  lemma AcceptedMeans(cfg: Config, p: Peer, m: Msg)
    requires p.node.chan.Sized() && Accepts(cfg, p, m)
    ensures Enabled(cfg, p.node, ActionFor(m))
    ensures m.Revocation? ==> p.node.awaiting
    ensures var a := ActionFor(m); (a.Settle? <==> m.Remove?) && (a.Settle? ==> CanSettle(p.node.chan, a.k))
  {
    hide ContentOf, SameContent, AddResult, SwapCheck, Recv;
  }

  lemma RevocationIsCounted(q: seq<Msg>)
    requires q != []
    ensures q[0].Revocation? ==> Count(q, RevokeAck) >= 1
  {
    KindsFirst(q);
  }

  lemma EndStepKeepsLinkInv(cfg: Config, e: Side, s: Link, ev: Event, s': Link)
    requires LinkInv(s) && !ev.Reconnects? && EndStep(cfg, e, s, ev, s')
    ensures LinkInv(s')
  {
    var p, o, out, into := s.End(e), s.End(e.Other()), s.Sent(e), s.Sent(e.Other());
    assert ev.Acts? && ev.a.Settle? ==> CanSettle(p.node.chan, ev.a.k);
    assert ev.Receives? && into[0].Remove? ==> CanSettle(p.node.chan, ActionFor(into[0]).k);
    hide InvFrom, LinkInv, Accepts, After, Message, Enabled;
    assert s == LinkFrom(e, p, o, out, into);
    EitherEnd(e, p, o, out, into);
    match ev
    case Acts(_, a) =>
      if Message(p.node, a) != [] {
        SendKeepsInv(cfg, p, o, out, into, a);
      } else {
        SilentKeepsInv(cfg, p, o, out, into, a);
      }
      EitherEnd(e, After(p, a), o, out + Message(p.node, a), into);
    case Receives(_) =>
      ReceiveKeepsInv(cfg, p, o, out, into);
      EitherEnd(e, After(p, ActionFor(into[0])), o, out + Reply(into[0]), into[1..]);
  }

  ghost predicate BothPatient(s: Link) {
    Patient(s.local.node.chan) && Patient(s.remote.node.chan)
  }

  lemma EndStepKeepsPatience(cfg: Config, e: Side, s: Link, ev: Event, s': Link)
    requires LinkInv(s) && BothPatient(s) && !ev.Reconnects? && EndStep(cfg, e, s, ev, s')
    ensures BothPatient(s')
  {
    var p, into := s.End(e), s.Sent(e.Other());
    assert Inv(p.node) && Patient(p.node.chan);
    var a := if ev.Acts? then ev.a else ActionFor(into[0]);
    assert Enabled(cfg, p.node, a);
    EnabledMeans(cfg, p.node, a);
    hide Inv, Patient, Enabled, LinkInv, Message, OwnAction, Next, Accepts;
    ActionKeepsPatience(cfg, p.node, a);
    AfterNumbers(p, a);
  }

  /** Every event, a reconnection included, keeps what holds of the two ends and the wire between them. */
  lemma StepKeepsLinkInv(cfgs: Pair<Config>, s: Link, ev: Event, s': Link)
    requires LinkInv(s) && BothPatient(s) && LinkStep(cfgs, s, ev, s')
    ensures LinkInv(s') && BothPatient(s')
  {
    hide EndStep, InvFrom, Patient, Resumes, Resumed, SentAgain;
    if ev.Reconnects? {
      ReconnectKeepsInv(s.local, s.remote, s.fromLocal, s.fromRemote, ev.local, ev.remote);
    } else {
      EndStepKeepsLinkInv(cfgs.At(ev.e), ev.e, s, ev, s');
      EndStepKeepsPatience(cfgs.At(ev.e), ev.e, s, ev, s');
    }
  }

  lemma NewIsPatient(n: Node)
    requires Initial(n)
    ensures Patient(n.chan)
  {
    var c := n.chan;
    forall lane: nat | lane < c.Lanes() ensures 0 <= Spared(c, lane) {
      assert StepTable(Kept(c.htlcs), RcvdCommit, lane, Local) == map[];
      SumZero(StepTable(Kept(c.htlcs), RcvdCommit, lane, Local));
      SparedIs(c, lane);
      assert 0 <= n.base[lane].At(Local);
    }
  }

  lemma NewLinkInv(s: Link)
    requires NewLink(s)
    ensures LinkInv(s) && BothPatient(s)
  {
    InitialInv(s.local.node);
    InitialInv(s.remote.node);
    NewIsPatient(s.local.node);
    NewIsPatient(s.remote.node);
    hide Inv, IsMirror, Patient;
  }

  lemma {:induction false} RunKeepsLinkInv(cfgs: Pair<Config>, ss: seq<Link>, evs: seq<Event>, i: nat)
    requires LinkRun(cfgs, ss, evs) && i < |ss|
    ensures LinkInv(ss[i]) && BothPatient(ss[i])
  {
    hide NewLink, LinkStep, LinkInv, BothPatient;
    if i == 0 {
      NewLinkInv(ss[0]);
    } else {
      RunKeepsLinkInv(cfgs, ss, evs, i - 1);
      StepKeepsLinkInv(cfgs, ss[i - 1], evs[i - 1], ss[i]);
    }
  }

  // ---- What the two ends agree on

  /**
    Whenever an end processes a commitment, the transaction it builds for itself is the one the sender
    signed when it sent it: the same HTLCs, the same balances in every lane, the same block height.  A swap
    that comes with it is the sender's own, as the sender has committed it.
   */
  lemma SignaturesAgree(cfgs: Pair<Config>, ss: seq<Link>, evs: seq<Event>, i: nat, e: Side)
    requires LinkRun(cfgs, ss, evs) && i < |ss|
    requires var q := ss[i].Sent(e.Other()); q != [] && q[0].Commitment?
    ensures var m := ss[i].Sent(e.Other())[0];
            && ss[i].End(e).node.chan.Sized()
            && SameContent(m.signed, ContentOf(Recv(ss[i].End(e).node.chan, m), Local))
            && m.swap == SwapTold(ss[i].End(e.Other()).node.chan)
            && (m.swap.Some? ==> MirrorSwap(ss[i].End(e.Other()).node.chan.swaps.local,
               Recv(ss[i].End(e).node.chan, m).swaps.remote))
  {
    hide LinkStep, LinkInv, InvFrom, NewLink, SameContent;
    RunKeepsLinkInv(cfgs, ss, evs, i);
    var s := ss[i];
    var p, o, out, into := s.End(e), s.End(e.Other()), s.Sent(e), s.Sent(e.Other());
    assert s == LinkFrom(e, p, o, out, into);
    EitherEnd(e, p, o, out, into);
    SignatureAgrees(p, o, out, into);
    SwapAgrees(p.node.chan, o.node.chan, into[0]);
  }

  lemma SwapAgrees(c: Channel, d: Channel, m: Msg)
    requires c.Sized() && m.Commitment? && m.swap == SwapTold(d)
    ensures m.swap.Some? ==> MirrorSwap(d.swaps.local, Recv(c, m).swaps.remote)
  {
    hide StepView, StepHeights, StepHtlcs;
  }

  lemma SignatureAgrees(p: Peer, o: Peer, out: seq<Msg>, into: seq<Msg>)
    requires InvFrom(p, o, out, into) && into != [] && into[0].Commitment?
    ensures p.node.chan.Sized() && SameContent(into[0].signed, ContentOf(Recv(p.node.chan, into[0]), Local))
    ensures into[0].swap == SwapTold(o.node.chan)
  {
    var c, d, m := p.node.chan, o.node.chan, into[0];
    assert m.signed == ContentOf(d, Remote) && m.swap == SwapTold(d) by { assert m in into; }
    assert FitsAll(Recv(c, m), into[1..]);
    assert Deliver(c, into) == Deliver(Recv(c, m), into[1..]);
    OneOutstanding(o, p, into, out);
    AtMostOne(into, CommitSig);
    hide Inv, IsMirror, Deliver, FitsAll, Recv, ContentOf, SameContent, Count, Counted, Signed, SwapTold;
    forall x | x in into[1..] ensures !x.Commitment? { NoneCounted(into[1..], CommitSig, x); }
    DeliverKeepsContent(Recv(c, m), into[1..], Local);
    DeliverKeepsContent(d, out, Remote);
    LinkedIsSymmetric(c, d, out, into);
    ContentsMirror(Deliver(d, out), Deliver(c, into), Remote);
  }

  /** With nothing on the wire the two channels mirror each other, swap in flight included. */
  lemma QuietEndsMirror(cfgs: Pair<Config>, ss: seq<Link>, evs: seq<Event>, i: nat)
    requires LinkRun(cfgs, ss, evs) && i < |ss| && ss[i].fromLocal == [] && ss[i].fromRemote == []
    ensures IsMirror(ss[i].local.node.chan, ss[i].remote.node.chan)
  {
    hide LinkStep, NewLink, IsMirror, Inv, Counted;
    RunKeepsLinkInv(cfgs, ss, evs, i);
  }

  /**
    No message finds its receiver unprepared: a new HTLC's id is free, a fulfil or fail is for an HTLC
    that can be settled, a revocation is expected, a height comes from the opener.
   */
  lemma NothingIsOutOfPlace(cfgs: Pair<Config>, ss: seq<Link>, evs: seq<Event>, i: nat, e: Side)
    requires LinkRun(cfgs, ss, evs) && i < |ss| && ss[i].Sent(e.Other()) != []
    ensures var c, m := ss[i].End(e).node.chan, ss[i].Sent(e.Other())[0];
            && (m.Add? ==> Key(Remote, m.id) !in c.htlcs)
            && (m.Remove? ==> CanSettle(c, Key(Local, m.id)))
            && (m.Height? ==> c.opener.Remote?)
            && (m.Commitment? && m.swap.Some? ==> c.swaps.remote.None?)
            && (m.Revocation? ==> ss[i].End(e).node.awaiting)
  {
    hide LinkStep, LinkInv, InvFrom, NewLink;
    RunKeepsLinkInv(cfgs, ss, evs, i);
    var s := ss[i];
    var p, o, out, into := s.End(e), s.End(e.Other()), s.Sent(e), s.Sent(e.Other());
    assert s == LinkFrom(e, p, o, out, into);
    EitherEnd(e, p, o, out, into);
    FirstFits(p, o, out, into);
  }

  lemma FirstFits(p: Peer, o: Peer, out: seq<Msg>, into: seq<Msg>)
    requires InvFrom(p, o, out, into) && into != []
    ensures Fits(p.node.chan, into[0]) && (into[0].Revocation? ==> p.node.awaiting)
  {
    hide Inv, Linked, Signed, Recv;
    if into[0].Revocation? {
      OneOutstanding(p, o, out, into);
      KindsFirst(into);
    }
  }

  /** No commit step of either peer drives a balance below zero. */
  lemma NeitherUnderflows(cfgs: Pair<Config>, ss: seq<Link>, evs: seq<Event>, i: nat)
    requires LinkRun(cfgs, ss, evs) && i < |evs| && !evs[i].Reconnects?
    ensures var p := ss[i].End(evs[i].e);
            && p.node.chan.Sized()
            && (evs[i].Acts? && evs[i].a.SendCommit? ==> NoUnderflow(p.node.chan, SendingCommit))
            && (evs[i].Receives? ==>
                  var q := ss[i].Sent(evs[i].e.Other());
                  && q != []
                  && (q[0].Commitment? ==> NoUnderflow(TakeSwap(p.node.chan, q[0].swap), RcvdCommit)))
  {
    hide Inv, NewLink, Enabled, After, Message, Linked, Signed, FitsAll, Counted, Patient;
    RunKeepsLinkInv(cfgs, ss, evs, i);
    var s, ev := ss[i], evs[i];
    assert LinkStep(cfgs, s, ev, ss[i + 1]);
    var p := s.End(ev.e);
    assert Inv(p.node);
    if ev.Acts? {
      ActionKeepsInv(cfgs.At(ev.e), p.node, ev.a);
    } else {
      ActionKeepsInv(cfgs.At(ev.e), p.node, ActionFor(s.Sent(ev.e.Other())[0]));
    }
  }

  lemma CountsFromOne(cfgs: Pair<Config>, ss: seq<Link>, evs: seq<Event>, i: nat, e: Side)
    requires LinkRun(cfgs, ss, evs) && i < |ss|
    ensures 0 < ss[i].End(e).next.local
  {
    hide LinkStep, NewLink, Linked, Settling, Kinds, CountOf;
    RunKeepsLinkInv(cfgs, ss, evs, i);
  }

  /**
    Lose everything that is on the wire, at any moment of any run: the numbers the ends exchange reach no
    refusal, each end resends a commitment or a revocation exactly if it was lost, and both in the order
    in which they were sent.
   */
  lemma ReestablishIsExact(cfgs: Pair<Config>, ss: seq<Link>, evs: seq<Event>, i: nat, e: Side)
    requires LinkRun(cfgs, ss, evs) && i < |ss|
    requires ss[i].End(e).next.local < U64 && ss[i].End(e).next.remote < U64
    ensures var p, o := ss[i].End(e), ss[i].End(e.Other());
            Answering(NumbersOf(p), o.next.local, o.revs) == Resend(Kinds(ss[i].Sent(e)))
  {
    hide LinkStep, NewLink, Answering, Numbered, Linked, Settling, Kinds;
    RunKeepsLinkInv(cfgs, ss, evs, i);
    var s := ss[i];
    CountsFromOne(cfgs, ss, evs, i, e.Other());
    AnswerIsExact(NumbersOf(s.End(e)), NumbersOf(s.End(e.Other())), Kinds(s.Sent(e)), Kinds(s.Sent(e.Other())));
  }

  lemma RunGrows(cfgs: Pair<Config>, ss: seq<Link>, evs: seq<Event>, ev: Event, s': Link)
    requires LinkRun(cfgs, ss, evs) && LinkStep(cfgs, ss[|evs|], ev, s')
    ensures LinkRun(cfgs, ss + [s'], evs + [ev])
  {
    hide LinkStep, NewLink;
  }

  lemma LinkInvIsCounted(s: Link)
    requires LinkInv(s)
    ensures Counted(s.local, s.remote, s.fromLocal) && Counted(s.remote, s.local, s.fromRemote)
  {
    hide Linked, Settling, Counted, Signed;
  }

  /** So a reconnection goes through at any moment at which no height is on its way, and the run goes on from there. */
  lemma ReconnectionGoesThrough(cfgs: Pair<Config>, ss: seq<Link>, evs: seq<Event>)
    returns (ev: Event, s': Link)
    requires LinkRun(cfgs, ss, evs)
    requires var s := ss[|evs|];
             && NoHeights(s.fromLocal) && NoHeights(s.fromRemote)
             && forall e :: SteadyHeights(s.End(e).node.chan.heights)
                            && s.End(e).next.local < U64 && s.End(e).next.remote < U64
    ensures ev.Reconnects? && LinkRun(cfgs, ss + [s'], evs + [ev])
    ensures forall e :: Kinds(s'.Sent(e)) == Kinds(ss[|evs|].Sent(e))
  {
    hide NewLink, SteadyHeights, NoHeights, Resumed, SentAgain, Resumes, EndStep, Linked, Settling, Counted;
    var s := ss[|evs|];
    RunKeepsLinkInv(cfgs, ss, evs, |evs|);
    assert s.End(Local) == s.local && s.End(Remote) == s.remote;
    LinkInvIsCounted(s);
    var x := SomeResumption(s.local, s.remote, s.fromLocal, s.fromRemote);
    var y := SomeResumption(s.remote, s.local, s.fromRemote, s.fromLocal);
    ev := Reconnects(x, y);
    s' := Link(Resumed(s.local, x), Resumed(s.remote, y), SentAgain(s.local, x), SentAgain(s.remote, y));
    assert LinkStep(cfgs, s, ev, s');
    ResumesExactly(s.local, s.remote, s.fromLocal, s.fromRemote, x);
    ResumesExactly(s.remote, s.local, s.fromRemote, s.fromLocal, y);
    KindsSentAgain(s.local, s.remote, x);
    KindsSentAgain(s.remote, s.local, y);
    RunGrows(cfgs, ss, evs, ev, s');
  }
}
