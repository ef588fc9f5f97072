/** Quiescence: two peers agree to stop updating, and on which of them asked. */
module Quiescence {
  import opened Sides

  /** `want_stfu`, `stfu_initiator` and `stfu_sent`. */
  datatype Stfu = Stfu(want: bool, initiator: Side, sent: Pair<bool>) {
    /** `is_stfu_active`. */
    predicate Active() {
      sent.local && sent.remote
    }
  }

  /** A peer's next state, and the `stfu` it sends, which says whether it claims to be the initiator. */
  datatype Outcome = Outcome(next: Stfu, msgs: seq<bool>)

  /** `maybe_send_stfu`; `blocked` says that we have updates pending. */
  function MaybeSend(q: Stfu, blocked: bool): Outcome {
    if !q.want || blocked then Outcome(q, [])
    else
      var msgs := if q.sent.local then [] else [q.initiator.Local?];
      var told := q.(sent := Pair(true, q.sent.remote));
      Outcome(if told.Active() then told.(want := false) else told, msgs)
  }

  /**
    `handle_stfu`, or nothing where it drops the connection: the peer has updates pending (`unfinished`), or it
    answers when we did not ask.
   */
  function Handled(q: Stfu, opener: Side, initiated: bool, blocked: bool, unfinished: bool): Option<Outcome> {
    if unfinished || (!q.want && !initiated) then None
    else
      var named := if !q.want then q.(want := true, initiator := Remote)
                   else if initiated then q.(initiator := opener)
                   else q;
      Some(MaybeSend(named.(sent := Pair(named.sent.local, true)), blocked))
  }

  /** `handle_stfu_req`: refused while we are at it, or already quiescent. */
  function Requested(q: Stfu, blocked: bool): Outcome {
    if q.want || q.Active() then Outcome(q, [])
    else MaybeSend(q.(want := true, initiator := Local), blocked)
  }

  /** `handle_dev_quiesce`, or nothing where it fails: only the first of those two checks is made. */
  function DevRequested(q: Stfu, blocked: bool): Option<Outcome> {
    if q.want then None else Some(MaybeSend(q.(want := true, initiator := Local), blocked))
  }

  class LiveStfu {
    var want: bool
    var initiator: Side
    var sent: Pair<bool>

    ghost function State(): Stfu
      reads this
    {
      Stfu(want, initiator, sent)
    }

    constructor ()
      ensures State() == Stfu(false, Local, Pair(false, false))
    {
      want, initiator, sent := false, Local, Pair(false, false);
    }

    method MaybeSendStfu(blocked: bool) returns (msgs: seq<bool>)
      modifies this
      ensures Outcome(State(), msgs) == MaybeSend(old(State()), blocked)
    {
      msgs := [];
      if !want || blocked { return; }
      if !sent.local {
        msgs := [initiator.Local?];
        sent := Pair(true, sent.remote);
      }
      if sent.local && sent.remote {
        want := false;
      }
    }

    method HandleStfu(opener: Side, initiated: bool, blocked: bool, unfinished: bool)
      returns (ok: bool, msgs: seq<bool>)
      modifies this
      ensures ok == Handled(old(State()), opener, initiated, blocked, unfinished).Some?
      ensures ok ==> Outcome(State(), msgs) == Handled(old(State()), opener, initiated, blocked, unfinished).value
    {
      if unfinished { return false, []; }
      if !want {
        want := true;
        if !initiated { return false, []; }
        initiator := Remote;
      } else if initiated {
        initiator := opener;
      }
      sent := Pair(sent.local, true);
      msgs := MaybeSendStfu(blocked);
      ok := true;
    }

    method HandleStfuReq(blocked: bool) returns (msgs: seq<bool>)
      modifies this
      ensures Outcome(State(), msgs) == Requested(old(State()), blocked)
    {
      if want || (sent.local && sent.remote) { return []; }
      initiator := Local;
      want := true;
      msgs := MaybeSendStfu(blocked);
    }
  }

  // ---- Two peers

  /** Both ends and the `stfu` messages on their way. */
  datatype Pact = Pact(local: Stfu, remote: Stfu, fromLocal: seq<bool>, fromRemote: seq<bool>) {
    function End(e: Side): Stfu {
      if e.Local? then local else remote
    }

    function Sent(e: Side): seq<bool> {
      if e.Local? then fromLocal else fromRemote
    }
  }

  function PactFrom(e: Side, p: Stfu, o: Stfu, out: seq<bool>, into: seq<bool>): Pact {
    if e.Local? then Pact(p, o, out, into) else Pact(o, p, into, out)
  }

  datatype Event =
    | Asks(e: Side, blocked: bool)       // somebody asks `e` for quiescence
    | Retries(e: Side, blocked: bool)    // `e` finished a commitment or a revocation
    | Receives(e: Side, blocked: bool, unfinished: bool)   // `e` gets the next `stfu`

  /** Whose channel it is, as end `e` sees it; the local end sees `opener`. */
  function OpenerSeen(opener: Side, e: Side): Side {
    if e.Local? then opener else opener.Other()
  }

  predicate PactStep(opener: Side, s: Pact, ev: Event, s': Pact) {
    var p, o, out, into := s.End(ev.e), s.End(ev.e.Other()), s.Sent(ev.e), s.Sent(ev.e.Other());
    match ev
    case Asks(e, blocked) =>
      var r := Requested(p, blocked);
      s' == PactFrom(e, r.next, o, out + r.msgs, into)
    case Retries(e, blocked) =>
      var r := MaybeSend(p, blocked);
      s' == PactFrom(e, r.next, o, out + r.msgs, into)
    case Receives(e, blocked, unfinished) =>
      && into != []
      && var r := Handled(p, OpenerSeen(opener, e), into[0], blocked, unfinished);
      && r.Some?
      && s' == PactFrom(e, r.value.next, o, out + r.value.msgs, into[1..])
  }

  const Idle := Stfu(false, Local, Pair(false, false))

  predicate PactRun(opener: Side, ss: seq<Pact>, evs: seq<Event>) {
    && |ss| == |evs| + 1
    && ss[0] == Pact(Idle, Idle, [], [])
    && forall i: nat :: i < |evs| ==> PactStep(opener, ss[i], evs[i], ss[i + 1])
  }

  /** What holds of one end, the messages it has on the way, and what the other has got. */
  predicate Coherent(p: Stfu, o: Stfu, out: seq<bool>, opener: Side) {
    && |out| <= 1
    && (p.sent.local <==> out != [] || o.sent.remote)
    && !(out != [] && o.sent.remote)
    && (!p.want ==> p.sent.local == p.sent.remote)
    && (p.want && !p.sent.remote ==> p.initiator.Local?)
    && (p.sent.remote && !p.sent.local ==> p.initiator.Local? ==> opener.Local?)
    && (out != [] && !p.sent.remote ==> out[0])
    && (out != [] && p.sent.remote ==> if out[0] then p.initiator == opener else p.initiator.Remote?)
  }

  predicate Agreed(p: Stfu, o: Stfu) {
    p.Active() && o.Active() ==> p.initiator == o.initiator.Other()
  }

  predicate PactInv(opener: Side, p: Stfu, o: Stfu, out: seq<bool>, into: seq<bool>) {
    Coherent(p, o, out, opener) && Coherent(o, p, into, opener.Other()) && Agreed(p, o)
  }

  lemma RequestKeeps(opener: Side, p: Stfu, o: Stfu, out: seq<bool>, into: seq<bool>, blocked: bool)
    requires PactInv(opener, p, o, out, into)
    ensures var r := Requested(p, blocked); PactInv(opener, r.next, o, out + r.msgs, into)
  {
  }

  lemma RetryKeeps(opener: Side, p: Stfu, o: Stfu, out: seq<bool>, into: seq<bool>, blocked: bool)
    requires PactInv(opener, p, o, out, into)
    ensures var r := MaybeSend(p, blocked); PactInv(opener, r.next, o, out + r.msgs, into)
  {
  }

  /** What arrives with no updates pending is always taken, and keeps what holds. */
  lemma ReceiveKeeps(opener: Side, p: Stfu, o: Stfu, out: seq<bool>, into: seq<bool>, blocked: bool)
    requires PactInv(opener, p, o, out, into) && into != []
    ensures var r := Handled(p, opener, into[0], blocked, false);
            r.Some? && PactInv(opener, r.value.next, o, out + r.value.msgs, into[1..])
  {
  }

  lemma RefusedUnfinished(p: Stfu, opener: Side, initiated: bool, blocked: bool)
    ensures Handled(p, opener, initiated, blocked, true).None?
  {
  }

  ghost predicate PactHolds(opener: Side, s: Pact) {
    PactInv(opener, s.local, s.remote, s.fromLocal, s.fromRemote)
  }

  lemma EitherEnd(opener: Side, e: Side, p: Stfu, o: Stfu, out: seq<bool>, into: seq<bool>)
    ensures PactHolds(opener, PactFrom(e, p, o, out, into)) <==> PactInv(OpenerSeen(opener, e), p, o, out, into)
  {
  }

  lemma StepKeeps(opener: Side, s: Pact, ev: Event, s': Pact)
    requires PactHolds(opener, s) && PactStep(opener, s, ev, s')
    ensures PactHolds(opener, s')
  {
    var e := ev.e;
    var p, o, out, into := s.End(e), s.End(e.Other()), s.Sent(e), s.Sent(e.Other());
    var seen := OpenerSeen(opener, e);
    hide PactInv, PactHolds, MaybeSend, Requested, Handled;
    assert s == PactFrom(e, p, o, out, into);
    EitherEnd(opener, e, p, o, out, into);
    match ev
    case Asks(_, blocked) =>
      var r := Requested(p, blocked);
      RequestKeeps(seen, p, o, out, into, blocked);
      EitherEnd(opener, e, r.next, o, out + r.msgs, into);
    case Retries(_, blocked) =>
      var r := MaybeSend(p, blocked);
      RetryKeeps(seen, p, o, out, into, blocked);
      EitherEnd(opener, e, r.next, o, out + r.msgs, into);
    case Receives(_, blocked, unfinished) =>
      var r := Handled(p, seen, into[0], blocked, unfinished);
      assert r == Handled(p, seen, into[0], blocked, false) by { RefusedUnfinished(p, seen, into[0], blocked); }
      ReceiveKeeps(seen, p, o, out, into, blocked);
      EitherEnd(opener, e, r.value.next, o, out + r.value.msgs, into[1..]);
  }

  lemma {:induction false} RunHolds(opener: Side, ss: seq<Pact>, evs: seq<Event>, i: nat)
    requires PactRun(opener, ss, evs) && i < |ss|
    ensures PactHolds(opener, ss[i])
  {
    if i > 0 {
      RunHolds(opener, ss, evs, i - 1);
      hide PactHolds, PactStep;
      StepKeeps(opener, ss[i - 1], evs[i - 1], ss[i]);
    }
  }

  /**
    In every interleaving, with either side's updates holding it up as they may: two quiescent peers name
    the same initiator, and an `stfu` is refused exactly if its sender has updates pending, never as unsolicited.
   */
  lemma QuiescentPeersAgree(opener: Side, ss: seq<Pact>, evs: seq<Event>, i: nat, e: Side, blocked: bool,
      unfinished: bool)
    requires PactRun(opener, ss, evs) && i < |ss|
    ensures Agreed(ss[i].local, ss[i].remote)
    ensures ss[i].Sent(e.Other()) != [] ==>
              (Handled(ss[i].End(e), OpenerSeen(opener, e), ss[i].Sent(e.Other())[0], blocked, unfinished).None? <==>
                unfinished)
  {
    hide PactRun, PactInv;
    RunHolds(opener, ss, evs, i);
    var s := ss[i];
    var p, o, out, into := s.End(e), s.End(e.Other()), s.Sent(e), s.Sent(e.Other());
    assert s == PactFrom(e, p, o, out, into);
    EitherEnd(opener, e, p, o, out, into);
    if into != [] {
      ReceiveKeeps(OpenerSeen(opener, e), p, o, out, into, blocked);
      RefusedUnfinished(p, OpenerSeen(opener, e), into[0], blocked);
    }
    InvAgrees(opener, s.local, s.remote, s.fromLocal, s.fromRemote);
  }

  lemma InvAgrees(opener: Side, p: Stfu, o: Stfu, out: seq<bool>, into: seq<bool>)
    requires PactInv(opener, p, o, out, into)
    ensures Agreed(p, o)
  {
  }

  // ---- dev_quiesce

  /**
    `dev_quiesce` does not look whether the channel is quiescent already.  It keeps the peers agreed exactly
    if it is not, or if we are the initiator anyway.
   */
  lemma DevRequestAgreesIff(opener: Side, p: Stfu, o: Stfu, out: seq<bool>, into: seq<bool>, blocked: bool)
    requires PactInv(opener, p, o, out, into) && !p.want
    ensures var r := DevRequested(p, blocked);
            r.Some? &&
            (PactInv(opener, r.value.next, o, out + r.value.msgs, into) <==>
             !p.Active() || p.initiator.Local?)
    ensures p.Active() && o.Active() ==> (Agreed(DevRequested(p, blocked).value.next, o) <==> p.initiator.Local?)
    ensures !p.Active() ==> DevRequested(p, blocked) == Some(Requested(p, blocked))
  {
  }

  /** One peer asks, the other answers; both are quiescent and agree; then the other is asked too. */
  lemma DevRequestBreaksAgreement()
    ensures exists ss: seq<Pact>, evs: seq<Event> ::
              && PactRun(Local, ss, evs) && |ss| == 4
              && ss[3].local.Active() && ss[3].remote.Active()
              && DevRequested(ss[3].remote, false).Some?
              && !Agreed(ss[3].local, DevRequested(ss[3].remote, false).value.next)
  {
    var s0 := Pact(Idle, Idle, [], []);
    var s1 := Pact(Stfu(true, Local, Pair(true, false)), Idle, [true], []);
    var s2 := Pact(s1.local, Stfu(false, Remote, Pair(true, true)), [], [false]);
    var s3 := Pact(Stfu(false, Local, Pair(true, true)), s2.remote, [], []);
    var ss, evs := [s0, s1, s2, s3],
        [Asks(Local, false), Receives(Remote, false, false), Receives(Local, false, false)];
    assert PactStep(Local, ss[0], evs[0], ss[1]);
    assert PactStep(Local, ss[1], evs[1], ss[2]);
    assert PactStep(Local, ss[2], evs[2], ss[3]);
    assert PactRun(Local, ss, evs);
  }
}
