/**
  The messages the two ends of a channel exchange, what sending and receiving one does to a channel,
  and why the two can be swapped: a message that is still on its way can be taken as delivered.
 */
module Messages {
  import opened Sides
  import opened HtlcStates
  import opened Sums
  import opened ChannelState
  import opened Runs
  import opened Solvency

  /** What a commitment transaction says of one HTLC. */
  datatype Terms = Terms(lane: nat, amount: Msat, expiry: nat, rhash: nat)

  function TermsOf(h: Htlc): Terms {
    Terms(h.lane, h.amount, h.expiry, h.rhash)
  }

  /** What a view's commitment transaction is made of: its HTLCs, every lane's balances, the block height. */
  datatype Content = Content(htlcs: map<Key, Terms>, owed: Balances, height: Option<nat>)

  /** `get_blockheight`: the first height, in the opener's five states, that is committed in `view`. */
  function HeightFrom(hs: map<HtlcState, nat>, first: HtlcState, view: Side): Option<nat>
    requires first < 15
  {
    if first in hs && Committed(first, view) then Some(hs[first])
    else if first + 1 in hs && Committed(first + 1, view) then Some(hs[first + 1])
    else if first + 2 in hs && Committed(first + 2, view) then Some(hs[first + 2])
    else if first + 3 in hs && Committed(first + 3, view) then Some(hs[first + 3])
    else if first + 4 in hs && Committed(first + 4, view) then Some(hs[first + 4])
    else None
  }

  function CommittedTerms(htlcs: map<Key, Htlc>, view: Side): map<Key, Terms> {
    map k | k in htlcs && Committed(htlcs[k].state, view) :: TermsOf(htlcs[k])
  }

  function ContentOf(c: Channel, view: Side): Content {
    Content(CommittedTerms(c.htlcs, view), c.view.At(view), HeightFrom(c.heights, OfferState(c.opener), view))
  }

  datatype Msg =
    | Add(id: nat, h: Htlc)
    | Remove(id: nat, fulfil: bool)
    | Height(height: nat)
    | Commitment(swap: Option<Swap>, signed: Content)
    | Revocation

  /** What sending `m` does to the sender's channel. */
  ghost function Send(c: Channel, m: Msg): (r: Channel)
    requires c.Sized()
    ensures r.Sized()
  {
    match m
    case Add(id, h) => Offered(c, Key(Local, id), h.(state := SENT_ADD_HTLC))
    case Remove(id, fulfil) =>
      var k := Key(Remote, id);
      if CanSettle(c, k) then Settled(c, k, fulfil) else c
    case Height(height) => c.(heights := c.heights[SENT_ADD_HTLC := height])
    case Commitment(_, _) => Change(c, SendingCommit)
    case Revocation => SwapDone(Change(c, SendingRevoke))
  }

  /** What receiving `m` does to the receiver's channel, before it answers. */
  ghost function Recv(c: Channel, m: Msg): (r: Channel)
    requires c.Sized()
    ensures r.Sized()
  {
    match m
    case Add(id, h) => Offered(c, Key(Remote, id), h.(state := RCVD_ADD_HTLC))
    case Remove(id, fulfil) =>
      var k := Key(Local, id);
      if CanSettle(c, k) then Settled(c, k, fulfil) else c
    case Height(height) => c.(heights := c.heights[RCVD_ADD_HTLC := height])
    case Commitment(swap, _) => Change(TakeSwap(c, swap), RcvdCommit)
    case Revocation => SwapDone(Change(c, RcvdRevoke))
  }

  /** The channel once everything in `q` has arrived. */
  ghost function Deliver(c: Channel, q: seq<Msg>): (r: Channel)
    requires c.Sized()
    ensures r.Sized()
    decreases |q|
  {
    if q == [] then c else Deliver(Recv(c, q[0]), q[1..])
  }

  /** `m` is a message `c` can take: nothing about it is out of place. */
  predicate Fits(c: Channel, m: Msg) {
    match m
    case Add(id, h) => Key(Remote, id) !in c.htlcs && h.state == SENT_ADD_HTLC && !h.fulfilled && !h.failed
    case Remove(id, _) => CanSettle(c, Key(Local, id)) && c.htlcs[Key(Local, id)].state == SENT_ADD_ACK_REVOCATION
    case Height(_) => c.opener.Remote?
    case Commitment(swap, _) => swap.Some? ==> c.swaps.remote.None? && swap.value.state == RCVD_ADD_HTLC
    case Revocation => true
  }

  ghost predicate FitsAll(c: Channel, q: seq<Msg>)
    requires c.Sized()
    decreases |q|
  {
    q == [] || (Fits(c, q[0]) && FitsAll(Recv(c, q[0]), q[1..]))
  }

  /** `m` is a message `c` can send. */
  predicate CanSend(c: Channel, m: Msg) {
    match m
    case Add(id, h) => Key(Local, id) !in c.htlcs && h.state == SENT_ADD_HTLC && !h.fulfilled && !h.failed
    case Remove(id, _) => CanSettle(c, Key(Remote, id)) && c.htlcs[Key(Remote, id)].state == RCVD_ADD_ACK_REVOCATION
    case Height(_) => c.opener.Local?
    case Commitment(_, _) => true
    case Revocation => true
  }

  /** A commitment and a revocation that cross are the only messages whose order matters. */
  predicate Clash(m: Msg, x: Msg) {
    (m.Commitment? && x.Revocation?) || (m.Revocation? && x.Commitment?)
  }

  // ---- Steps that change different views can be swapped

  predicate Compatible(a: Step, b: Step) {
    || (a.SendingCommit? && b.RcvdCommit?) || (a.RcvdCommit? && b.SendingCommit?)
    || (a.SendingRevoke? && b.RcvdRevoke?) || (a.RcvdRevoke? && b.SendingRevoke?)
  }

  lemma BumpsCommute(a: Step, b: Step, s: HtlcState)
    requires Compatible(a, b)
    ensures a.Bump(b.Bump(s)) == b.Bump(a.Bump(s))
    ensures a.Moves(b.Bump(s)) <==> a.Moves(s)
    ensures a.Moves(s) ==> b.Bump(s) == s && !Dead(s)
    ensures Dead(a.Bump(s)) ==> !b.Moves(s) && !b.Moves(a.Bump(s))
    ensures Dead(a.Bump(b.Bump(s))) <==> Dead(a.Bump(s)) || Dead(b.Bump(s))
  {
  }

  lemma HtlcAfterTwo(htlcs: map<Key, Htlc>, a: Step, b: Step, k: Key)
    requires Compatible(a, b)
    ensures var twice := StepHtlcs(StepHtlcs(htlcs, a), b);
            && (k in twice <==> k in htlcs && !Dead(b.Bump(a.Bump(htlcs[k].state))))
            && (k in twice ==> twice[k] == htlcs[k].(state := b.Bump(a.Bump(htlcs[k].state))))
  {
    hide Step.Bump, Dead;
    if k in htlcs {
      BumpsCommute(a, b, htlcs[k].state);
      BumpsCommute(b, a, htlcs[k].state);
    }
  }

  lemma HtlcsCommute(htlcs: map<Key, Htlc>, a: Step, b: Step)
    requires Compatible(a, b)
    ensures StepHtlcs(StepHtlcs(htlcs, a), b) == StepHtlcs(StepHtlcs(htlcs, b), a)
  {
    hide Step.Bump, Dead, StepHtlcs;
    var ab, ba := StepHtlcs(StepHtlcs(htlcs, a), b), StepHtlcs(StepHtlcs(htlcs, b), a);
    forall k: Key ensures (k in ab <==> k in ba) && (k in ab ==> ab[k] == ba[k]) {
      HtlcAfterTwo(htlcs, a, b, k);
      HtlcAfterTwo(htlcs, b, a, k);
      if k in htlcs { BumpsCommute(a, b, htlcs[k].state); }
    }
  }

  /** What a step adds up is not touched by a compatible one before it. */
  lemma TableStays(htlcs: map<Key, Htlc>, a: Step, b: Step, lane: nat, p: Side)
    requires Compatible(a, b)
    ensures StepTable(StepHtlcs(htlcs, b), a, lane, p) == StepTable(htlcs, a, lane, p)
  {
    hide Compatible, AdvanceEffect, Step.Moves, Dead;
    forall k | k in htlcs
      ensures a.Moves(b.Bump(htlcs[k].state)) <==> a.Moves(htlcs[k].state)
      ensures a.Moves(htlcs[k].state) ==> b.Bump(htlcs[k].state) == htlcs[k].state && !Dead(htlcs[k].state)
    {
      BumpsCommute(a, b, htlcs[k].state);
    }
  }

  lemma SwapStays(s: Option<Swap>, a: Step, b: Step, lane: nat, p: Side)
    requires Compatible(a, b)
    ensures SwapStepEffect(StepSwap(s, b), a, lane, p) == SwapStepEffect(s, a, lane, p)
    ensures StepSwap(StepSwap(s, b), a) == StepSwap(StepSwap(s, a), b)
  {
    if s.Some? {
      hide SwapEffect, Compatible;
      BumpsCommute(a, b, s.value.state);
    }
  }

  predicate Apart(s: HtlcState, t: HtlcState) {
    s != t && s + 1 != t && s != t + 1
  }

  lemma IncsCommute(hs: map<HtlcState, nat>, s: HtlcState, t: HtlcState)
    requires s < 19 && t < 19 && Apart(s, t)
    ensures IncHeight(IncHeight(hs, s), t) == IncHeight(IncHeight(hs, t), s)
  {
  }

  lemma FourIncsCommute(hs: map<HtlcState, nat>, a: HtlcState, b: HtlcState, c: HtlcState, d: HtlcState)
    requires a < 19 && b < 19 && c < 19 && d < 19
    requires Apart(a, c) && Apart(a, d) && Apart(b, c) && Apart(b, d)
    ensures IncHeight(IncHeight(IncHeight(IncHeight(hs, a), b), c), d) ==
            IncHeight(IncHeight(IncHeight(IncHeight(hs, c), d), a), b)
  {
    hide IncHeight;
    IncsCommute(IncHeight(hs, a), b, c);
    IncsCommute(hs, a, c);
    IncsCommute(IncHeight(IncHeight(hs, c), a), b, d);
    IncsCommute(IncHeight(hs, c), a, d);
  }

  lemma HeightsCommute(hs: map<HtlcState, nat>, a: Step, b: Step)
    requires Compatible(a, b)
    ensures StepHeights(StepHeights(hs, a), b) == StepHeights(StepHeights(hs, b), a)
  {
    hide IncHeight;
    if a.SendingCommit? || b.SendingCommit? {
      FourIncsCommute(hs, SENT_ADD_REVOCATION, SENT_ADD_HTLC, RCVD_ADD_HTLC, RCVD_ADD_REVOCATION);
    } else {
      FourIncsCommute(hs, SENT_ADD_ACK_COMMIT, SENT_ADD_COMMIT, RCVD_ADD_COMMIT, RCVD_ADD_ACK_COMMIT);
    }
  }

  lemma OwedStays(c: Channel, a: Step, b: Step, lane: nat, p: Side)
    requires c.Sized() && Compatible(a, b) && lane < c.Lanes()
    ensures StepOwed(Change(c, b), a, lane, p) == StepOwed(c, a, lane, p)
  {
    hide Sum, StepTable, SwapStepEffect, StepHtlcs, StepView, StepHeights;
    TableStays(c.htlcs, a, b, lane, p);
    SwapStays(c.swaps.local, a, b, lane, p);
    SwapStays(c.swaps.remote, a, b, lane, p);
  }

  lemma ViewStays(c: Channel, a: Step, b: Step)
    requires c.Sized() && Compatible(a, b)
    ensures StepView(Change(c, b), a) == StepView(c, a)
  {
    hide StepOwed, Compatible;
    forall lane: nat, p: Side | lane < c.Lanes() ensures StepOwed(Change(c, b), a, lane, p) == StepOwed(c, a, lane, p) {
      OwedStays(c, a, b, lane, p);
    }
  }

  lemma StepsCommute(c: Channel, a: Step, b: Step)
    requires c.Sized() && Compatible(a, b)
    ensures Change(Change(c, a), b) == Change(Change(c, b), a)
  {
    ViewStays(c, a, b);
    ViewStays(c, b, a);
    HtlcsCommute(c.htlcs, a, b);
    HeightsCommute(c.heights, a, b);
    SwapStays(c.swaps.local, a, b, 0, Local);
    SwapStays(c.swaps.remote, a, b, 0, Local);
    hide StepView, StepHtlcs, StepHeights, StepSwap;
  }

  /** A finished swap plays no part in any step. */
  lemma DoneThenStep(c: Channel, step: Step)
    requires c.Sized()
    ensures SwapDone(Change(SwapDone(c), step)) == SwapDone(Change(c, step))
  {
    hide StepHtlcs, StepHeights, Sum, StepTable;
    forall lane: nat, p: Side | lane < c.Lanes()
      ensures StepOwed(SwapDone(c), step, lane, p) == StepOwed(c, step, lane, p)
    {
    }
    assert StepView(SwapDone(c), step) == StepView(c, step);
  }

  // ---- Updates can be swapped with steps that move neither the old nor the new entry

  lemma PutOwed(c: Channel, k: Key, h: Htlc, step: Step, lane: nat, p: Side)
    requires c.Sized() && lane < c.Lanes() && (k in c.htlcs ==> !step.Moves(c.htlcs[k].state)) && !step.Moves(h.state)
    ensures StepOwed(Offered(c, k, h), step, lane, p) == StepOwed(c, step, lane, p)
  {
    hide Sum, SwapStepEffect, AdvanceEffect;
    assert StepTable(c.htlcs[k := h], step, lane, p) == StepTable(c.htlcs, step, lane, p);
  }

  lemma PutThenStep(c: Channel, k: Key, h: Htlc, step: Step)
    requires c.Sized() && !step.Moves(h.state) && !Dead(h.state)
    requires k in c.htlcs ==> !step.Moves(c.htlcs[k].state)
    ensures Change(Offered(c, k, h), step) == Offered(Change(c, step), k, h)
  {
    hide Step.Moves, Dead, StepHeights;
    assert StepHtlcs(c.htlcs[k := h], step) == StepHtlcs(c.htlcs, step)[k := h];
    hide StepOwed, StepHtlcs;
    forall lane: nat, p: Side | lane < c.Lanes()
      ensures StepOwed(Offered(c, k, h), step, lane, p) == StepOwed(c, step, lane, p)
    {
      PutOwed(c, k, h, step, lane, p);
    }
    assert StepView(Offered(c, k, h), step) == StepView(c, step);
    hide StepView;
  }

  /** Where an HTLC that is not moved and not dead ends up after a step: where it was. */
  lemma StepLeaves(c: Channel, k: Key, step: Step)
    requires c.Sized() && k in c.htlcs && !step.Moves(c.htlcs[k].state) && !Dead(c.htlcs[k].state)
    ensures k in Change(c, step).htlcs && Change(c, step).htlcs[k] == c.htlcs[k]
  {
    hide StepView, StepHeights;
  }

  lemma SettleThenStep(c: Channel, k: Key, fulfil: bool, step: Step)
    requires c.Sized() && CanSettle(c, k) && !step.Moves(c.htlcs[k].state + 1)
    ensures CanSettle(Change(c, step), k) && Change(c, step).htlcs[k] == c.htlcs[k]
    ensures Change(Settled(c, k, fulfil), step) == Settled(Change(c, step), k, fulfil)
  {
    hide StepView, StepHeights, StepHtlcs;
    StepLeaves(c, k, step);
    var h := c.htlcs[k];
    PutThenStep(c, k, h.(state := h.state + 1, fulfilled := fulfil, failed := !fulfil), step);
  }

  lemma StartThenInc(hs: map<HtlcState, nat>, slot: HtlcState, height: nat, s: HtlcState)
    requires s < 19 && slot != s && slot != s + 1
    ensures IncHeight(hs[slot := height], s) == IncHeight(hs, s)[slot := height]
  {
  }

  lemma StartThenHeights(hs: map<HtlcState, nat>, slot: HtlcState, height: nat, step: Step)
    requires slot == SENT_ADD_HTLC || slot == RCVD_ADD_HTLC
    requires step.SendingCommit? ==> slot == RCVD_ADD_HTLC
    requires step.RcvdCommit? ==> slot == SENT_ADD_HTLC
    ensures StepHeights(hs[slot := height], step) == StepHeights(hs, step)[slot := height]
  {
    hide IncHeight;
    var s: HtlcState := match step
      case SendingCommit => SENT_ADD_REVOCATION
      case RcvdRevoke => SENT_ADD_ACK_COMMIT
      case RcvdCommit => RCVD_ADD_HTLC
      case SendingRevoke => RCVD_ADD_COMMIT;
    var t: HtlcState := match step
      case SendingCommit => SENT_ADD_HTLC
      case RcvdRevoke => SENT_ADD_COMMIT
      case RcvdCommit => RCVD_ADD_REVOCATION
      case SendingRevoke => RCVD_ADD_ACK_COMMIT;
    StartThenInc(hs, slot, height, s);
    StartThenInc(IncHeight(hs, s), slot, height, t);
  }

  /** A height that has just been started is not touched by the steps of the other direction. */
  lemma HeightThenStep(c: Channel, slot: HtlcState, height: nat, step: Step)
    requires c.Sized() && (slot == SENT_ADD_HTLC || slot == RCVD_ADD_HTLC)
    requires step.SendingCommit? ==> slot == RCVD_ADD_HTLC
    requires step.RcvdCommit? ==> slot == SENT_ADD_HTLC
    ensures var d := c.(heights := c.heights[slot := height]);
            Change(d, step) == Change(c, step).(heights := Change(c, step).heights[slot := height])
  {
    var d := c.(heights := c.heights[slot := height]);
    hide StepOwed, StepHtlcs, StepView, StepHeights;
    StartThenHeights(c.heights, slot, height, step);
    forall lane: nat, p: Side | lane < c.Lanes() ensures StepOwed(d, step, lane, p) == StepOwed(c, step, lane, p) {
      OwedIgnoresHeights(c, d.heights, step, lane, p);
    }
    SameOwedSameView(c, d, step);
  }

  lemma SameOwedSameView(c: Channel, d: Channel, step: Step)
    requires c.Sized() && d.Sized() && c.Lanes() == d.Lanes()
    requires forall lane: nat, p: Side :: lane < c.Lanes() ==> StepOwed(d, step, lane, p) == StepOwed(c, step, lane, p)
    ensures StepView(d, step) == StepView(c, step)
  {
    hide StepOwed;
  }

  lemma OwedIgnoresHeights(c: Channel, hs: map<HtlcState, nat>, step: Step, lane: nat, p: Side)
    requires c.Sized() && lane < c.Lanes()
    ensures StepOwed(c.(heights := hs), step, lane, p) == StepOwed(c, step, lane, p)
  {
  }

  // ---- Sending and receiving can be swapped

  predicate IsUpdate(m: Msg) {
    m.Add? || m.Remove? || m.Height?
  }

  lemma SendThenStep(c: Channel, m: Msg, step: Step)
    requires c.Sized() && IsUpdate(m) && CanSend(c, m) && (step.RcvdCommit? || step.RcvdRevoke?)
    ensures CanSend(Change(c, step), m)
    ensures Change(Send(c, m), step) == Send(Change(c, step), m)
  {
    hide StepView, StepHeights;
    match m
    case Add(id, h) => PutThenStep(c, Key(Local, id), h.(state := SENT_ADD_HTLC), step);
    case Remove(id, fulfil) => SettleThenStep(c, Key(Remote, id), fulfil, step);
    case Height(height) => HeightThenStep(c, SENT_ADD_HTLC, height, step);
  }

  lemma RecvThenStep(c: Channel, x: Msg, step: Step)
    requires c.Sized() && IsUpdate(x) && Fits(c, x) && (step.SendingCommit? || step.SendingRevoke?)
    ensures Fits(Change(c, step), x)
    ensures Change(Recv(c, x), step) == Recv(Change(c, step), x)
  {
    hide StepView, StepHeights;
    match x
    case Add(id, h) => PutThenStep(c, Key(Remote, id), h.(state := RCVD_ADD_HTLC), step);
    case Remove(id, fulfil) => SettleThenStep(c, Key(Local, id), fulfil, step);
    case Height(height) => HeightThenStep(c, RCVD_ADD_HTLC, height, step);
  }

  lemma UpdatesCommute(c: Channel, m: Msg, x: Msg)
    requires c.Sized() && IsUpdate(m) && IsUpdate(x) && CanSend(c, m) && Fits(c, x)
    ensures Fits(Send(c, m), x) && CanSend(Recv(c, x), m)
    ensures Recv(Send(c, m), x) == Send(Recv(c, x), m)
  {
    hide Change, SwapDone;
    assert Recv(Send(c, m), x).htlcs == Send(Recv(c, x), m).htlcs;
    assert Recv(Send(c, m), x).heights == Send(Recv(c, x), m).heights;
  }

  /** Taking a swap that has not been committed yet does not disturb our own steps. */
  lemma TakeThenStep(c: Channel, swap: Option<Swap>, step: Step)
    requires c.Sized() && Fits(c, Commitment(swap, ContentOf(c, Local))) && step.SendingCommit?
    ensures Change(TakeSwap(c, swap), step) == TakeSwap(Change(c, step), swap)
  {
    hide StepHtlcs, StepHeights, Sum, StepTable, StepOwed;
    forall lane: nat, p: Side | lane < c.Lanes()
      ensures StepOwed(TakeSwap(c, swap), step, lane, p) == StepOwed(c, step, lane, p)
    {
      TakeKeepsOwed(c, swap, step, lane, p);
    }
    SameOwedSameView(c, TakeSwap(c, swap), step);
  }

  lemma TakeKeepsOwed(c: Channel, swap: Option<Swap>, step: Step, lane: nat, p: Side)
    requires c.Sized() && lane < c.Lanes() && step.SendingCommit?
    requires swap.Some? ==> c.swaps.remote.None? && swap.value.state == RCVD_ADD_HTLC
    ensures StepOwed(TakeSwap(c, swap), step, lane, p) == StepOwed(c, step, lane, p)
  {
  }

  lemma SendThenTake(c: Channel, m: Msg, swap: Option<Swap>)
    requires c.Sized() && IsUpdate(m)
    ensures Send(TakeSwap(c, swap), m) == TakeSwap(Send(c, m), swap)
    ensures CanSend(TakeSwap(c, swap), m) == CanSend(c, m)
  {
    hide Change, SwapDone;
  }

  lemma SendThenDone(c: Channel, m: Msg)
    requires c.Sized() && IsUpdate(m)
    ensures Send(SwapDone(c), m) == SwapDone(Send(c, m))
    ensures CanSend(SwapDone(c), m) == CanSend(c, m)
  {
    hide Change;
  }

  lemma RecvThenDone(c: Channel, x: Msg)
    requires c.Sized() && IsUpdate(x)
    ensures Recv(SwapDone(c), x) == SwapDone(Recv(c, x))
    ensures Fits(SwapDone(c), x) == Fits(c, x)
  {
    hide Change;
  }

  lemma UpdateAndStepCommute(c: Channel, m: Msg, x: Msg)
    requires c.Sized() && IsUpdate(m) != IsUpdate(x) && CanSend(c, m) && Fits(c, x)
    ensures Fits(Send(c, m), x) && CanSend(Recv(c, x), m)
    ensures Recv(Send(c, m), x) == Send(Recv(c, x), m)
  {
    if m.Commitment? {
      RecvThenStep(c, x, SendingCommit);
    } else if m.Revocation? {
      RecvThenStep(c, x, SendingRevoke);
      RecvThenDone(Change(c, SendingRevoke), x);
    } else if x.Commitment? {
      SendThenTake(c, m, x.swap);
      SendThenStep(TakeSwap(c, x.swap), m, RcvdCommit);
      hide Change;
    } else {
      SendThenStep(c, m, RcvdRevoke);
      SendThenDone(Change(c, RcvdRevoke), m);
      hide Change;
    }
  }

  lemma CommitmentsCommute(c: Channel, m: Msg, x: Msg)
    requires c.Sized() && m.Commitment? && x.Commitment? && Fits(c, x)
    ensures Fits(Send(c, m), x) && CanSend(Recv(c, x), m)
    ensures Recv(Send(c, m), x) == Send(Recv(c, x), m)
  {
    TakeThenStep(c, x.swap, SendingCommit);
    StepsCommute(TakeSwap(c, x.swap), SendingCommit, RcvdCommit);
    hide StepView, StepHeights, StepHtlcs;
  }

  lemma RevocationsCommute(c: Channel)
    requires c.Sized()
    ensures Fits(Send(c, Revocation), Revocation) && CanSend(Recv(c, Revocation), Revocation)
    ensures Recv(Send(c, Revocation), Revocation) == Send(Recv(c, Revocation), Revocation)
  {
    DoneThenStep(Change(c, SendingRevoke), RcvdRevoke);
    DoneThenStep(Change(c, RcvdRevoke), SendingRevoke);
    StepsCommute(c, SendingRevoke, RcvdRevoke);
    hide Change, SwapDone;
  }

  lemma SendRecvCommute(c: Channel, m: Msg, x: Msg)
    requires c.Sized() && CanSend(c, m) && Fits(c, x) && !Clash(m, x)
    ensures Fits(Send(c, m), x) && CanSend(Recv(c, x), m)
    ensures Recv(Send(c, m), x) == Send(Recv(c, x), m)
  {
    hide Send, Recv, CanSend, Fits;
    if IsUpdate(m) && IsUpdate(x) {
      UpdatesCommute(c, m, x);
    } else if IsUpdate(m) != IsUpdate(x) {
      UpdateAndStepCommute(c, m, x);
    } else if m.Commitment? {
      CommitmentsCommute(c, m, x);
    } else {
      RevocationsCommute(c);
    }
  }

  /** Sending `m` and then having all of `q` delivered is the same the other way round. */
  lemma {:induction false} SendThenDeliver(c: Channel, m: Msg, q: seq<Msg>)
    requires c.Sized() && CanSend(c, m) && FitsAll(c, q)
    requires forall x :: x in q ==> !Clash(m, x)
    ensures FitsAll(Send(c, m), q) && CanSend(Deliver(c, q), m)
    ensures Deliver(Send(c, m), q) == Send(Deliver(c, q), m)
    decreases |q|
  {
    hide Send, Recv, CanSend, Fits, Clash;
    if q != [] {
      assert q[0] in q;
      SendRecvCommute(c, m, q[0]);
      SendThenDeliver(Recv(c, q[0]), m, q[1..]);
    }
  }

  lemma {:induction false} DeliverOneMore(c: Channel, q: seq<Msg>, m: Msg)
    requires c.Sized()
    ensures Deliver(c, q + [m]) == Recv(Deliver(c, q), m)
    ensures FitsAll(c, q + [m]) <==> FitsAll(c, q) && Fits(Deliver(c, q), m)
    decreases |q|
  {
    hide Recv, Fits;
    if q != [] {
      assert (q + [m])[1..] == q[1..] + [m];
      DeliverOneMore(Recv(c, q[0]), q[1..], m);
    }
  }

  // ---- Only a view's own commitment changes what its transaction says

  lemma StateKeepsFlag(s: HtlcState, step: Step, v: Side)
    requires step != CommitStep(v)
    ensures Committed(step.Bump(s), v) == Committed(s, v)
    ensures Dead(step.Bump(s)) ==> !Committed(s, v)
  {
  }

  lemma StepKeepsTerms(htlcs: map<Key, Htlc>, step: Step, v: Side)
    requires step != CommitStep(v)
    ensures CommittedTerms(StepHtlcs(htlcs, step), v) == CommittedTerms(htlcs, v)
  {
    hide Committed, Step.Bump, Dead;
    var x, y := CommittedTerms(StepHtlcs(htlcs, step), v), CommittedTerms(htlcs, v);
    forall k: Key ensures (k in x <==> k in y) && (k in x ==> x[k] == y[k]) {
      if k in htlcs { StateKeepsFlag(htlcs[k].state, step, v); }
    }
  }

  lemma StepKeepsHeight(hs: map<HtlcState, nat>, step: Step, opener: Side, v: Side)
    requires step != CommitStep(v)
    ensures HeightFrom(StepHeights(hs, step), OfferState(opener), v) == HeightFrom(hs, OfferState(opener), v)
  {
  }

  lemma StepKeepsContent(c: Channel, step: Step, v: Side)
    requires c.Sized() && step != CommitStep(v)
    ensures ContentOf(Change(c, step), v) == ContentOf(c, v)
  {
    StepKeepsTerms(c.htlcs, step, v);
    StepKeepsHeight(c.heights, step, c.opener, v);
    if step.Changes() == v { RevokeMovesNoBalance(c, step); }
    hide CommittedTerms, HeightFrom, StepView, StepHeights, StepHtlcs;
  }

  lemma SettleKeepsTerms(c: Channel, k: Key, fulfil: bool, v: Side)
    requires CanSettle(c, k)
    ensures CommittedTerms(Settled(c, k, fulfil).htlcs, v) == CommittedTerms(c.htlcs, v)
  {
  }

  lemma AddKeepsTerms(htlcs: map<Key, Htlc>, k: Key, h: Htlc, v: Side)
    requires k !in htlcs && !Committed(h.state, v)
    ensures CommittedTerms(htlcs[k := h], v) == CommittedTerms(htlcs, v)
  {
  }

  lemma SendKeepsContent(c: Channel, m: Msg, v: Side)
    requires c.Sized() && CanSend(c, m) && !(m.Commitment? && v.Remote?)
    ensures ContentOf(Send(c, m), v) == ContentOf(c, v)
  {
    match m
    case Add(id, h) => AddKeepsTerms(c.htlcs, Key(Local, id), h.(state := SENT_ADD_HTLC), v);
    case Remove(id, fulfil) => SettleKeepsTerms(c, Key(Remote, id), fulfil, v);
    case Height(_) =>
    case Commitment(_, _) => StepKeepsContent(c, SendingCommit, v);
    case Revocation => StepKeepsContent(c, SendingRevoke, v);
  }

  lemma RecvKeepsContent(c: Channel, x: Msg, v: Side)
    requires c.Sized() && Fits(c, x) && !(x.Commitment? && v.Local?)
    ensures ContentOf(Recv(c, x), v) == ContentOf(c, v)
  {
    match x
    case Add(id, h) => AddKeepsTerms(c.htlcs, Key(Remote, id), h.(state := RCVD_ADD_HTLC), v);
    case Remove(id, fulfil) => SettleKeepsTerms(c, Key(Local, id), fulfil, v);
    case Height(_) =>
    case Commitment(swap, _) => StepKeepsContent(TakeSwap(c, swap), RcvdCommit, v);
    case Revocation => StepKeepsContent(c, RcvdRevoke, v);
  }

  lemma {:induction false} DeliverKeepsContent(c: Channel, q: seq<Msg>, v: Side)
    requires c.Sized() && FitsAll(c, q)
    requires v.Local? ==> forall x :: x in q ==> !x.Commitment?
    ensures ContentOf(Deliver(c, q), v) == ContentOf(c, v)
    decreases |q|
  {
    hide ContentOf, Fits, Recv;
    if q != [] {
      assert q[0] in q;
      RecvKeepsContent(c, q[0], v);
      DeliverKeepsContent(Recv(c, q[0]), q[1..], v);
    }
  }
}
