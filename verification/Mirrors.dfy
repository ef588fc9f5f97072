/** When two channels are the two ends of one: each is the other with the sides traded. */
module Mirrors {
  import opened Sides
  import opened HtlcStates
  import opened Sums
  import opened ChannelState
  import opened Runs
  import opened Messages

  function FlipKey(k: Key): Key {
    Key(k.owner.Other(), k.id)
  }

  function FlipHtlc(h: Htlc): Htlc {
    h.(state := Mirror(h.state))
  }

  ghost predicate MirrorHtlcs(a: map<Key, Htlc>, b: map<Key, Htlc>) {
    && (forall k :: k in a ==> FlipKey(k) in b && b[FlipKey(k)] == FlipHtlc(a[k]))
    && (forall k {:trigger FlipKey(k) in a} :: k in b ==> FlipKey(k) in a)
  }

  /** What one end owes each side in a view is what the other end has in the opposite view. */
  ghost predicate MirrorViews(c: Channel, d: Channel)
    requires c.Sized() && d.Sized()
  {
    && c.Lanes() == d.Lanes()
    && forall v: Side, lane: nat, p: Side :: lane < c.Lanes() ==>
       d.Owed(v.Other(), lane, p.Other()) == c.Owed(v, lane, p)
  }

  ghost predicate MirrorHeights(a: map<HtlcState, nat>, b: map<HtlcState, nat>) {
    && (forall s: HtlcState :: s in a ==> Mirror(s) in b && b[Mirror(s)] == a[s])
    && (forall s: HtlcState {:trigger Mirror(s) in a} :: s in b ==> Mirror(s) in a)
  }

  function FlipSwap(s: Swap): Swap {
    s.(state := Mirror(s.state))
  }

  /** The peer knows of our swap from the commitment that first carries it. */
  predicate MirrorSwap(own: Option<Swap>, theirs: Option<Swap>) {
    if own.None? || own.value.state == SENT_ADD_HTLC then theirs.None? else theirs == Some(FlipSwap(own.value))
  }

  ghost predicate IsMirror(c: Channel, d: Channel) {
    && c.Sized() && d.Sized()
    && d.opener == c.opener.Other()
    && MirrorHtlcs(c.htlcs, d.htlcs)
    && MirrorViews(c, d)
    && MirrorHeights(c.heights, d.heights)
    && MirrorSwap(c.swaps.local, d.swaps.remote)
    && MirrorSwap(d.swaps.local, c.swaps.remote)
  }

  /** The swap that the next commitment carries to the peer. */
  function Carried(c: Channel): Option<Swap> {
    if c.swaps.local.Some? && c.swaps.local.value.state == SENT_ADD_HTLC
    then Some(FlipSwap(c.swaps.local.value)) else None
  }

  lemma StateMirrors(s: HtlcState, step: Step)
    ensures step.Mirror().Moves(Mirror(s)) <==> step.Moves(s)
    ensures step.Mirror().Bump(Mirror(s)) == Mirror(step.Bump(s))
    ensures Dead(Mirror(s)) <==> Dead(s)
    ensures Mirror(Mirror(s)) == s
  {
  }

  lemma EffectMirrors(h: Htlc, v: Side, p: Side)
    requires h.state < 19 && h.state != 9
    ensures AdvanceEffect(FlipHtlc(h), v.Other(), p.Other()) == AdvanceEffect(h, v, p)
  {
  }

  lemma SwapEffectMirrors(s: Swap, lane: nat, p: Side)
    ensures SwapEffect(FlipSwap(s), lane, p.Other()) == SwapEffect(s, lane, p)
  {
  }

  lemma EntryMirrors(a: map<Key, Htlc>, b: map<Key, Htlc>, step: Step, lane: nat, p: Side, k: Key)
    requires k in a && FlipKey(k) in b && b[FlipKey(k)] == FlipHtlc(a[k])
    ensures var x := StepTable(a, step, lane, p);
            var y := StepTable(b, step.Mirror(), lane, p.Other());
            && (k in x <==> FlipKey(k) in y)
            && (k in x ==> x[k] == y[FlipKey(k)])
  {
    hide Sum, AdvanceEffect, Step.Moves, Mirror;
    StateMirrors(a[k].state, step);
    if step.Moves(a[k].state) {
      MovedIsAlive(a[k].state, step);
      EffectMirrors(a[k], step.Changes(), p);
    }
  }

  lemma TableMirrors(a: map<Key, Htlc>, b: map<Key, Htlc>, step: Step, lane: nat, p: Side)
    requires MirrorHtlcs(a, b)
    ensures Sum(StepTable(b, step.Mirror(), lane, p.Other())) == Sum(StepTable(a, step, lane, p))
  {
    var x, y := StepTable(a, step, lane, p), StepTable(b, step.Mirror(), lane, p.Other());
    assert forall k :: k in x ==> k in a;
    assert forall k :: k in y ==> k in b;
    hide Sum, StepTable, FlipHtlc;
    forall k | k in x ensures FlipKey(k) in y && y[FlipKey(k)] == x[k] {
      EntryMirrors(a, b, step, lane, p, k);
    }
    forall j | j in y ensures FlipKey(j) in x {
      assert FlipKey(FlipKey(j)) == j;
      EntryMirrors(a, b, step, lane, p, FlipKey(j));
    }
    SumRename(x, y, FlipKey);
  }

  lemma MovedIsAlive(s: HtlcState, step: Step)
    requires step.Moves(s)
    ensures s < 19 && s != 9
    ensures step.Mirror().Changes() == step.Changes().Other()
  {
  }

  lemma HtlcMirrors(a: map<Key, Htlc>, b: map<Key, Htlc>, step: Step, k: Key)
    requires k in a && FlipKey(k) in b && b[FlipKey(k)] == FlipHtlc(a[k])
    ensures var x := StepHtlcs(a, step);
            var y := StepHtlcs(b, step.Mirror());
            && (k in x <==> FlipKey(k) in y)
            && (k in x ==> y[FlipKey(k)] == FlipHtlc(x[k]))
  {
    hide Step.Bump, Mirror, Dead;
    StateMirrors(a[k].state, step);
    StateMirrors(step.Bump(a[k].state), step);
  }

  lemma StepKeys(htlcs: map<Key, Htlc>, step: Step)
    ensures StepHtlcs(htlcs, step).Keys <= htlcs.Keys
  {
  }

  lemma HtlcsMirror(a: map<Key, Htlc>, b: map<Key, Htlc>, step: Step)
    requires MirrorHtlcs(a, b)
    ensures MirrorHtlcs(StepHtlcs(a, step), StepHtlcs(b, step.Mirror()))
  {
    var x, y := StepHtlcs(a, step), StepHtlcs(b, step.Mirror());
    StepKeys(a, step);
    StepKeys(b, step.Mirror());
    hide StepHtlcs, FlipHtlc;
    forall k | k in x ensures FlipKey(k) in y && y[FlipKey(k)] == FlipHtlc(x[k]) {
      HtlcMirrors(a, b, step, k);
    }
    forall j | j in y ensures FlipKey(j) in x {
      assert FlipKey(FlipKey(j)) == j;
      HtlcMirrors(a, b, step, FlipKey(j));
    }
  }

  lemma IncMirrors(a: map<HtlcState, nat>, b: map<HtlcState, nat>, s: HtlcState)
    requires MirrorHeights(a, b) && s < 19 && s != 9
    ensures MirrorHeights(IncHeight(a, s), IncHeight(b, Mirror(s)))
  {
    assert Mirror(s + 1) == Mirror(s) + 1;
    var x, y := IncHeight(a, s), IncHeight(b, Mirror(s));
    forall t: HtlcState | t in x ensures Mirror(t) in y && y[Mirror(t)] == x[t] {
      assert Mirror(Mirror(t)) == t && Mirror(Mirror(s)) == s;
    }
    forall t: HtlcState | t in y ensures Mirror(t) in x {
      assert Mirror(Mirror(t)) == t && Mirror(Mirror(s)) == s;
    }
  }

  lemma HeightsMirror(a: map<HtlcState, nat>, b: map<HtlcState, nat>, step: Step)
    requires MirrorHeights(a, b)
    ensures MirrorHeights(StepHeights(a, step), StepHeights(b, step.Mirror()))
  {
    hide IncHeight, MirrorHeights;
    match step
    case SendingCommit =>
      IncMirrors(a, b, SENT_ADD_REVOCATION);
      IncMirrors(IncHeight(a, SENT_ADD_REVOCATION), IncHeight(b, RCVD_ADD_REVOCATION), SENT_ADD_HTLC);
      IncsCommute(b, RCVD_ADD_HTLC, RCVD_ADD_REVOCATION);
    case RcvdRevoke =>
      IncMirrors(a, b, SENT_ADD_ACK_COMMIT);
      IncMirrors(IncHeight(a, SENT_ADD_ACK_COMMIT), IncHeight(b, RCVD_ADD_ACK_COMMIT), SENT_ADD_COMMIT);
      IncsCommute(b, RCVD_ADD_COMMIT, RCVD_ADD_ACK_COMMIT);
    case RcvdCommit =>
      IncMirrors(a, b, RCVD_ADD_HTLC);
      IncMirrors(IncHeight(a, RCVD_ADD_HTLC), IncHeight(b, SENT_ADD_HTLC), RCVD_ADD_REVOCATION);
      IncsCommute(b, SENT_ADD_REVOCATION, SENT_ADD_HTLC);
    case SendingRevoke =>
      IncMirrors(a, b, RCVD_ADD_COMMIT);
      IncMirrors(IncHeight(a, RCVD_ADD_COMMIT), IncHeight(b, SENT_ADD_COMMIT), RCVD_ADD_ACK_COMMIT);
      IncsCommute(b, SENT_ADD_ACK_COMMIT, SENT_ADD_COMMIT);
  }

  /** A swap and its mirror at the moment of a step: exact, or one the peer does not know and the step does not move. */
  predicate SwapReady(own: Option<Swap>, theirs: Option<Swap>, step: Step) {
    if own.None? then theirs.None?
    else
      || theirs == Some(FlipSwap(own.value))
      || (own.value.state == SENT_ADD_HTLC && theirs.None? && !step.Moves(SENT_ADD_HTLC))
  }

  lemma SwapMirrors(own: Option<Swap>, theirs: Option<Swap>, step: Step, lane: nat, p: Side)
    requires SwapReady(own, theirs, step)
    ensures SwapStepEffect(theirs, step.Mirror(), lane, p.Other()) == SwapStepEffect(own, step, lane, p)
    ensures SwapReady(StepSwap(own, step), StepSwap(theirs, step.Mirror()), step)
  {
    if own.Some? {
      hide SwapEffect;
      SwapEffectMirrors(own.value, lane, p);
    }
  }

  /** The two ends of a channel at the moment one of them takes a step. */
  ghost predicate Ready(c: Channel, d: Channel, step: Step) {
    && c.Sized() && d.Sized()
    && d.opener == c.opener.Other()
    && MirrorHtlcs(c.htlcs, d.htlcs)
    && MirrorViews(c, d)
    && MirrorHeights(c.heights, d.heights)
    && SwapReady(c.swaps.local, d.swaps.remote, step)
    && SwapReady(d.swaps.local, c.swaps.remote, step.Mirror())
  }

  lemma OwedMirrors(c: Channel, d: Channel, step: Step, lane: nat, p: Side)
    requires Ready(c, d, step) && lane < c.Lanes()
    ensures StepOwed(d, step.Mirror(), lane, p.Other()) == StepOwed(c, step, lane, p)
  {
    hide Sum, StepTable, SwapStepEffect, MirrorHtlcs, MirrorHeights, SwapReady;
    TableMirrors(c.htlcs, d.htlcs, step, lane, p);
    SwapMirrors(c.swaps.local, d.swaps.remote, step, lane, p);
    SwapMirrors(d.swaps.local, c.swaps.remote, step.Mirror(), lane, p.Other());
    assert d.Owed(step.Changes().Other(), lane, p.Other()) == c.Owed(step.Changes(), lane, p);
  }

  lemma ViewsMirror(c: Channel, d: Channel, step: Step)
    requires Ready(c, d, step)
    ensures MirrorViews(Change(c, step), Change(d, step.Mirror()))
  {
    hide StepOwed, StepHtlcs, StepHeights, MirrorHtlcs, MirrorHeights, SwapReady;
    var c', d' := Change(c, step), Change(d, step.Mirror());
    forall v: Side, lane: nat, p: Side | lane < c.Lanes()
      ensures d'.Owed(v.Other(), lane, p.Other()) == c'.Owed(v, lane, p)
    {
      OwedMirrors(c, d, step, lane, p);
      assert d.Owed(v.Other(), lane, p.Other()) == c.Owed(v, lane, p);
    }
  }

  lemma StepMirrors(c: Channel, d: Channel, step: Step)
    requires Ready(c, d, step)
    ensures Ready(Change(c, step), Change(d, step.Mirror()), step)
  {
    ViewsMirror(c, d, step);
    HtlcsMirror(c.htlcs, d.htlcs, step);
    HeightsMirror(c.heights, d.heights, step);
    SwapMirrors(c.swaps.local, d.swaps.remote, step, 0, Local);
    SwapMirrors(d.swaps.local, c.swaps.remote, step.Mirror(), 0, Local);
    hide StepView, StepHtlcs, StepHeights, MirrorViews, MirrorHtlcs, MirrorHeights, SwapReady, StepSwap;
  }

  // ---- Whatever one end sends, the other end mirrors

  lemma PutMirrors(a: map<Key, Htlc>, b: map<Key, Htlc>, k: Key, h: Htlc)
    requires MirrorHtlcs(a, b)
    ensures MirrorHtlcs(a[k := h], b[FlipKey(k) := FlipHtlc(h)])
  {
    hide FlipHtlc;
    assert FlipKey(FlipKey(k)) == k;
    var x, y := a[k := h], b[FlipKey(k) := FlipHtlc(h)];
    forall j | j in x ensures FlipKey(j) in y && y[FlipKey(j)] == FlipHtlc(x[j]) {
      assert FlipKey(FlipKey(j)) == j;
    }
    forall j | j in y ensures FlipKey(j) in x {
    }
  }

  lemma StartMirrors(a: map<HtlcState, nat>, b: map<HtlcState, nat>, height: nat)
    requires MirrorHeights(a, b)
    ensures MirrorHeights(a[SENT_ADD_HTLC := height], b[RCVD_ADD_HTLC := height])
  {
    assert forall t: HtlcState :: Mirror(Mirror(t)) == t;
  }

  lemma UpdateMirrors(c: Channel, d: Channel, m: Msg)
    requires IsMirror(c, d) && IsUpdate(m) && CanSend(c, m)
    ensures Fits(d, m) && IsMirror(Send(c, m), Recv(d, m))
  {
    hide Change, SwapDone, MirrorHeights;
    assert MirrorViews(Send(c, m), Recv(d, m)) by {
      SameViewsMirror(c, d, Recv(d, m));
      FlippedViewsMirror(c, Send(c, m), Recv(d, m));
    }
    hide MirrorViews;
    match m
    case Add(id, h) =>
      assert FlipKey(Key(Remote, id)) == Key(Local, id);
      assert FlipKey(Key(Remote, id)) !in c.htlcs;
      PutMirrors(c.htlcs, d.htlcs, Key(Local, id), h.(state := SENT_ADD_HTLC));
      hide MirrorHtlcs;
    case Remove(id, fulfil) =>
      var k := Key(Remote, id);
      assert FlipKey(k) == Key(Local, id);
      assert d.htlcs[FlipKey(k)] == FlipHtlc(c.htlcs[k]);
      var h := c.htlcs[k].(state := SENT_REMOVE_HTLC, fulfilled := fulfil, failed := !fulfil);
      PutMirrors(c.htlcs, d.htlcs, k, h);
      assert Send(c, m).htlcs == c.htlcs[k := h];
      assert Recv(d, m).htlcs == d.htlcs[FlipKey(k) := FlipHtlc(h)];
      hide MirrorHtlcs;
    case Height(height) =>
      StartMirrors(c.heights, d.heights, height);
      hide MirrorHtlcs;
  }

  lemma CommitmentMirrors(c: Channel, d: Channel, m: Msg)
    requires IsMirror(c, d) && m.Commitment? && m.swap == Carried(c)
    ensures Fits(d, m) && IsMirror(Send(c, m), Recv(d, m))
  {
    hide MirrorViews, MirrorHtlcs, MirrorHeights;
    var d' := TakeSwap(d, m.swap);
    assert MirrorViews(c, d') by { SameViewsMirror(c, d, d'); }
    StepMirrors(c, d', SendingCommit);
    hide StepView, StepHtlcs, StepHeights;
  }

  lemma SameViewsMirror(c: Channel, d: Channel, d': Channel)
    requires c.Sized() && d.Sized() && MirrorViews(c, d) && d'.view == d.view
    ensures MirrorViews(c, d')
  {
    forall v: Side, lane: nat, p: Side | lane < c.Lanes()
      ensures d'.Owed(v.Other(), lane, p.Other()) == c.Owed(v, lane, p)
    {
      assert d.Owed(v.Other(), lane, p.Other()) == c.Owed(v, lane, p);
    }
  }

  lemma RevocationMirrors(c: Channel, d: Channel)
    requires IsMirror(c, d)
    ensures IsMirror(Send(c, Revocation), Recv(d, Revocation))
  {
    hide MirrorViews, MirrorHtlcs, MirrorHeights;
    StepMirrors(c, d, SendingRevoke);
    var c', d' := Change(c, SendingRevoke), Change(d, RcvdRevoke);
    hide StepView, StepHtlcs, StepHeights;
    SameViewsMirror(c', d', SwapDone(d'));
    FlippedViewsMirror(c', SwapDone(c'), SwapDone(d'));
  }

  lemma FlippedViewsMirror(c: Channel, c': Channel, d: Channel)
    requires c.Sized() && d.Sized() && MirrorViews(c, d) && c'.view == c.view
    ensures MirrorViews(c', d)
  {
    forall v: Side, lane: nat, p: Side | lane < c.Lanes()
      ensures d.Owed(v.Other(), lane, p.Other()) == c'.Owed(v, lane, p)
    {
      assert d.Owed(v.Other(), lane, p.Other()) == c.Owed(v, lane, p);
    }
  }

  lemma SendMirrors(c: Channel, d: Channel, m: Msg)
    requires IsMirror(c, d) && CanSend(c, m) && (m.Commitment? ==> m.swap == Carried(c))
    ensures Fits(d, m) && IsMirror(Send(c, m), Recv(d, m))
  {
    hide IsMirror, Send, Recv, Carried;
    match m
    case Commitment(_, _) => CommitmentMirrors(c, d, m);
    case Revocation => RevocationMirrors(c, d);
    case _ => UpdateMirrors(c, d, m);
  }

  lemma MirrorHtlcsIsSymmetric(a: map<Key, Htlc>, b: map<Key, Htlc>)
    requires MirrorHtlcs(a, b)
    ensures MirrorHtlcs(b, a)
  {
    assert forall k {:trigger FlipKey(FlipKey(k))} :: FlipKey(FlipKey(k)) == k;
    assert forall h {:trigger FlipHtlc(FlipHtlc(h))} :: FlipHtlc(FlipHtlc(h)) == h;
    hide FlipKey, FlipHtlc;
  }

  lemma MirrorHeightsIsSymmetric(a: map<HtlcState, nat>, b: map<HtlcState, nat>)
    requires MirrorHeights(a, b)
    ensures MirrorHeights(b, a)
  {
    forall s: HtlcState | s in b ensures Mirror(s) in a && a[Mirror(s)] == b[s] {
      assert Mirror(Mirror(s)) == s;
    }
  }

  lemma MirrorIsSymmetric(c: Channel, d: Channel)
    requires IsMirror(c, d)
    ensures IsMirror(d, c)
  {
    MirrorHtlcsIsSymmetric(c.htlcs, d.htlcs);
    MirrorHeightsIsSymmetric(c.heights, d.heights);
    hide MirrorHtlcs, MirrorHeights;
    forall v: Side, lane: nat, p: Side | lane < c.Lanes()
      ensures c.Owed(v.Other(), lane, p.Other()) == d.Owed(v, lane, p)
    {
      assert d.Owed(v.Other().Other(), lane, p.Other().Other()) == c.Owed(v.Other(), lane, p.Other());
    }
  }

  // ---- The contents of the commitment transactions

  /** The same commitment transaction, as the two ends describe it. */
  ghost predicate SameContent(x: Content, y: Content) {
    && (forall k :: k in x.htlcs ==> FlipKey(k) in y.htlcs && y.htlcs[FlipKey(k)] == x.htlcs[k])
    && (forall k {:trigger FlipKey(k) in x.htlcs} :: k in y.htlcs ==> FlipKey(k) in x.htlcs)
    && |x.owed| == |y.owed|
    && (forall lane: nat :: lane < |x.owed| ==> y.owed[lane] == x.owed[lane].Flip())
    && x.height == y.height
  }

  lemma TermsMirror(a: map<Key, Htlc>, b: map<Key, Htlc>, v: Side)
    requires MirrorHtlcs(a, b)
    ensures var x := CommittedTerms(a, v);
            var y := CommittedTerms(b, v.Other());
            && (forall k :: k in x ==> FlipKey(k) in y && y[FlipKey(k)] == x[k])
            && (forall k {:trigger FlipKey(k) in x} :: k in y ==> FlipKey(k) in x)
  {
    forall k | k in b ensures FlipKey(k) in a && FlipKey(FlipKey(k)) == k {}
  }

  lemma ContentsMirror(c: Channel, d: Channel, v: Side)
    requires IsMirror(c, d)
    ensures SameContent(ContentOf(c, v), ContentOf(d, v.Other()))
  {
    TermsMirror(c.htlcs, d.htlcs, v);
    var x, y := ContentOf(c, v), ContentOf(d, v.Other());
    hide CommittedTerms, MirrorHtlcs;
    forall lane: nat | lane < |x.owed| ensures y.owed[lane] == x.owed[lane].Flip() {
      assert d.Owed(v.Other(), lane, Remote) == c.Owed(v, lane, Local);
      assert d.Owed(v.Other(), lane, Local) == c.Owed(v, lane, Remote);
    }
    HeightMirrors(c.heights, d.heights, c.opener, v);
    hide HeightFrom;
  }

  lemma SlotMirrors(a: map<HtlcState, nat>, b: map<HtlcState, nat>, s: HtlcState, v: Side)
    requires MirrorHeights(a, b)
    ensures Committed(Mirror(s), v.Other()) == Committed(s, v)
    ensures (Mirror(s) in b) == (s in a)
    ensures s in a ==> b[Mirror(s)] == a[s]
  {
    assert Mirror(Mirror(s)) == s;
  }

  lemma HeightMirrors(a: map<HtlcState, nat>, b: map<HtlcState, nat>, opener: Side, v: Side)
    requires MirrorHeights(a, b)
    ensures HeightFrom(a, OfferState(opener), v) == HeightFrom(b, OfferState(opener.Other()), v.Other())
  {
    hide Committed, MirrorHeights;
    var first := OfferState(opener);
    SlotMirrors(a, b, first, v);
    SlotMirrors(a, b, first + 1, v);
    SlotMirrors(a, b, first + 2, v);
    SlotMirrors(a, b, first + 3, v);
    SlotMirrors(a, b, first + 4, v);
  }
}
