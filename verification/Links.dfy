/** The two ends of a channel, what is on its way between them, and how the one explains the other. */
module Links {
  import opened Sides
  import opened HtlcStates
  import opened ChannelState
  import opened Runs
  import opened Messages
  import opened Mirrors

  /** One end: `next` is `next_index`, `revs` is `revocations_received`. */
  datatype Peer = Peer(node: Node, next: Pair<nat>, revs: nat, lastWasRevoke: bool)

  /** Both ends, and what each has sent that the other has not processed yet. */
  datatype Link = Link(local: Peer, remote: Peer, fromLocal: seq<Msg>, fromRemote: seq<Msg>) {
    function End(e: Side): Peer {
      if e.Local? then local else remote
    }

    function Sent(e: Side): seq<Msg> {
      if e.Local? then fromLocal else fromRemote
    }
  }

  /** The link whose end `e` is `p`, with `out` on its way from it and `into` on its way to it. */
  function LinkFrom(e: Side, p: Peer, o: Peer, out: seq<Msg>, into: seq<Msg>): Link {
    if e.Local? then Link(p, o, out, into) else Link(o, p, into, out)
  }

  /** The swap that rides in the commitment just made: the one it committed first. */
  function SwapTold(after: Channel): Option<Swap> {
    if after.swaps.local.Some? && after.swaps.local.value.state == SENT_ADD_COMMIT
    then Some(after.swaps.local.value.(state := RCVD_ADD_HTLC)) else None
  }

  // ---- What every reachable link keeps

  datatype Kind = CommitSig | RevokeAck

  function KindOf(m: Msg): seq<Kind> {
    if m.Commitment? then [CommitSig] else if m.Revocation? then [RevokeAck] else []
  }

  /** The commitments and revocations among the messages, in order. */
  function Kinds(q: seq<Msg>): seq<Kind> {
    if q == [] then [] else KindOf(q[0]) + Kinds(q[1..])
  }

  function CountOf(ks: seq<Kind>, kind: Kind): nat {
    multiset(ks)[kind]
  }

  function Count(q: seq<Msg>, kind: Kind): nat {
    CountOf(Kinds(q), kind)
  }

  lemma {:induction false} KindsAppend(q: seq<Msg>, r: seq<Msg>)
    ensures Kinds(q + r) == Kinds(q) + Kinds(r)
  {
    if q == [] {
      assert q + r == r;
    } else {
      assert (q + r)[1..] == q[1..] + r;
      KindsAppend(q[1..], r);
    }
  }

  lemma {:induction false} NoneCounted(q: seq<Msg>, kind: Kind, m: Msg)
    requires Count(q, kind) == 0 && m in q
    ensures KindOf(m) != [kind]
  {
    var i :| 0 <= i < |q| && q[i] == m;
    if i > 0 { NoneCounted(q[1..], kind, m); }
  }

  datatype Numbers = Numbers(next: Pair<nat>, revs: nat, awaiting: bool, lastWasRevoke: bool)

  function NumbersOf(p: Peer): Numbers {
    Numbers(p.next, p.revs, p.node.awaiting, p.lastWasRevoke)
  }

  /** One end's numbers, the other's, and the commitments and revocations on their way between them. */
  predicate Numbered(p: Numbers, o: Numbers, ks: seq<Kind>) {
    && p.next.remote == p.revs + (if p.awaiting then 2 else 1)
    && p.next.remote == o.next.local + CountOf(ks, CommitSig)
    && p.next.local == 1 + o.revs + CountOf(ks, RevokeAck)
    && (ks != [] ==> p.lastWasRevoke == ks[|ks| - 1].RevokeAck?)
  }

  predicate Counted(p: Peer, o: Peer, out: seq<Msg>) {
    Numbered(NumbersOf(p), NumbersOf(o), Kinds(out))
  }

  /**
    A commitment still on its way is for the transaction its sender has for the peer, and carries the swap it has just
    committed.
   */
  ghost predicate Signed(c: Channel, out: seq<Msg>) {
    forall m :: m in out && m.Commitment? ==> m.signed == ContentOf(c, Remote) && m.swap == SwapTold(c)
  }

  /** What is on its way to this end fits, and what it signed is still what it would sign. */
  ghost predicate Settling(p: Peer, out: seq<Msg>, into: seq<Msg>) {
    Inv(p.node) && FitsAll(p.node.chan, into) && Signed(p.node.chan, out)
  }

  /** Once everything on the wire has arrived, the two ends mirror each other. */
  ghost predicate Linked(c: Channel, d: Channel, out: seq<Msg>, into: seq<Msg>) {
    c.Sized() && d.Sized() && IsMirror(Deliver(c, into), Deliver(d, out))
  }

  ghost predicate InvFrom(p: Peer, o: Peer, out: seq<Msg>, into: seq<Msg>) {
    && Counted(p, o, out) && Counted(o, p, into)
    && Settling(p, out, into) && Settling(o, into, out)
    && Linked(p.node.chan, o.node.chan, out, into)
  }

  ghost predicate LinkInv(s: Link) {
    InvFrom(s.local, s.remote, s.fromLocal, s.fromRemote)
  }

  lemma LinkedIsSymmetric(c: Channel, d: Channel, out: seq<Msg>, into: seq<Msg>)
    requires Linked(c, d, out, into)
    ensures Linked(d, c, into, out)
  {
    hide IsMirror, Deliver;
    MirrorIsSymmetric(Deliver(c, into), Deliver(d, out));
  }

  lemma EitherEnd(e: Side, p: Peer, o: Peer, out: seq<Msg>, into: seq<Msg>)
    ensures LinkInv(LinkFrom(e, p, o, out, into)) <==> InvFrom(p, o, out, into)
  {
    hide Settling, Counted, Linked;
    if Linked(p.node.chan, o.node.chan, out, into) {
      LinkedIsSymmetric(p.node.chan, o.node.chan, out, into);
    }
    if Linked(o.node.chan, p.node.chan, into, out) {
      LinkedIsSymmetric(o.node.chan, p.node.chan, into, out);
    }
  }

  /** At most one commitment of `p`'s is out, or the revocation that answers it. */
  lemma OneOutstanding(p: Peer, o: Peer, out: seq<Msg>, into: seq<Msg>)
    requires Counted(p, o, out) && Counted(o, p, into)
    ensures Count(out, CommitSig) + Count(into, RevokeAck) == if p.node.awaiting then 1 else 0
  {
    hide CountOf, Kinds;
  }

  lemma AtMostOne(q: seq<Msg>, kind: Kind)
    requires q != [] && Count(q, kind) <= 1 && KindOf(q[0]) == [kind]
    ensures Count(q[1..], kind) == 0
  {
  }
}
