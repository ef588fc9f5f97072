/** What `add_htlc` and `channel_sym_swap_check` look at before they let an update in. */
module Admission {
  import opened Sides
  import opened HtlcStates
  import opened Sums
  import opened ChannelState

  // ---- Gathering

  predicate InLane(h: Htlc, lane: Option<nat>) {
    lane.Some? ==> h.lane == lane.value
  }

  /** `gather_lane_htlcs`: a view's HTLCs; no lane means every lane. */
  datatype Pool = Pool(committed: map<Key, Htlc>, removing: map<Key, Htlc>, adding: map<Key, Htlc>)

  function Gather(htlcs: map<Key, Htlc>, v: Side, lane: Option<nat>): Pool {
    Pool(
      map k | k in htlcs && InLane(htlcs[k], lane) && Committed(htlcs[k].state, v) :: htlcs[k],
      map k | k in htlcs && InLane(htlcs[k], lane) && Committed(htlcs[k].state, v)
        && Pending(htlcs[k].state, v) :: htlcs[k],
      map k | k in htlcs && InLane(htlcs[k], lane) && !Committed(htlcs[k].state, v)
        && Pending(htlcs[k].state, v) :: htlcs[k])
  }

  /** How many of the other side's HTLCs the view will hold. */
  function NumOther(htlcs: map<Key, Htlc>, v: Side, lane: Option<nat>): nat {
    |set k | k in htlcs && InLane(htlcs[k], lane) && Owner(htlcs[k].state) != v
          && Committed(htlcs[k].state, v) != Pending(htlcs[k].state, v)|
  }

  /** The HTLCs committed in a view. */
  function CommittedSet(htlcs: map<Key, Htlc>, v: Side): set<Key> {
    set k | k in htlcs && Committed(htlcs[k].state, v)
  }

  // ---- Balances as predicted

  function RemovingTable(pool: Pool, p: Side): map<Key, int> {
    map k | k in pool.removing :: RemoveEffect(pool.removing[k], p)
  }

  function AddingTable(pool: Pool, p: Side): map<Key, int> {
    map k | k in pool.adding :: AddEffect(pool.adding[k], p)
  }

  /** `swap_promised`, one swap: what `p` will pay in `lane` once view `v` commits it. */
  function PromisedBy(s: Option<Swap>, v: Side, lane: nat, p: Side): int {
    if s.None? || Committed(s.value.state, v) then 0
    else if Owner(s.value.state) == p then (if s.value.giveLane == lane then s.value.give else 0)
    else (if s.value.takeLane == lane then s.value.take else 0)
  }

  function Promised(c: Channel, v: Side, lane: nat, p: Side): int {
    PromisedBy(c.swaps.local, v, lane, p) + PromisedBy(c.swaps.remote, v, lane, p) + PromisedBy(c.req, v, lane, p)
  }

  /** The balance `get_room_above_reserve` and `lane_room` compute for `p` in view `v`. */
  ghost function Predicted(c: Channel, v: Side, lane: nat, pool: Pool, p: Side): int
    requires |c.view.local| == |c.view.remote| && lane < c.Lanes()
  {
    c.Owed(v, lane, p) + Sum(RemovingTable(pool, p)) + Sum(AddingTable(pool, p)) - Promised(c, v, lane, p)
  }

  /** Committed, less removing, plus adding is what the view's next commit step makes the committed set. */
  lemma GatherPredictsCommitted(htlcs: map<Key, Htlc>, v: Side)
    requires forall k :: k in htlcs ==> !Dead(htlcs[k].state)
    ensures var pool := Gather(htlcs, v, None);
            pool.committed.Keys - pool.removing.Keys + pool.adding.Keys
            == CommittedSet(StepHtlcs(htlcs, CommitStep(v)), v)
  {
    var pool := Gather(htlcs, v, None);
    var next := StepHtlcs(htlcs, CommitStep(v));
    forall k | k in htlcs
      ensures k in CommittedSet(next, v) <==> (k in pool.committed && k !in pool.removing) || k in pool.adding
    {
      CommitStepMovesPending(htlcs[k].state, v);
      if Pending(htlcs[k].state, v) {
        StepFlags(CommitStep(v), htlcs[k].state, v);
      }
    }
  }

  /** What is pending in a view is what its next commit step adds up. */
  lemma PendingIsStep(htlcs: map<Key, Htlc>, v: Side, lane: nat, p: Side)
    ensures var pool := Gather(htlcs, v, Some(lane));
            Sum(RemovingTable(pool, p)) + Sum(AddingTable(pool, p)) == Sum(StepTable(htlcs, CommitStep(v), lane, p))
  {
    var pool := Gather(htlcs, v, Some(lane));
    var step := StepTable(htlcs, CommitStep(v), lane, p);
    forall k | k in htlcs
      ensures k in step <==> htlcs[k].lane == lane && Pending(htlcs[k].state, v)
      ensures k in pool.removing && k in step ==> step[k] == RemoveEffect(htlcs[k], p)
      ensures k in pool.adding && k in step ==> step[k] == AddEffect(htlcs[k], p)
    {
      CommitStepMovesPending(htlcs[k].state, v);
      if Pending(htlcs[k].state, v) {
        StepFlags(CommitStep(v), htlcs[k].state, v);
      }
    }
    SumUnion(step, RemovingTable(pool, p), AddingTable(pool, p));
  }

  /** A swap moves nobody by less than what it promised. */
  lemma SwapStepWithinPromise(s: Option<Swap>, v: Side, lane: nat, p: Side)
    ensures -PromisedBy(s, v, lane, p) <= SwapStepEffect(s, CommitStep(v), lane, p)
    ensures s.None? || Committed(s.value.state, v) ==>
              SwapStepEffect(s, CommitStep(v), lane, p) == 0 == PromisedBy(s, v, lane, p)
  {
  }

  lemma RequestPromises(s: Option<Swap>, v: Side, lane: nat, p: Side)
    ensures 0 <= PromisedBy(s, v, lane, p) && (s.None? ==> PromisedBy(s, v, lane, p) == 0)
  {
  }

  /**
    The balance an admission check computes is a lower bound on the balance after the view's next
    commit step, and exactly that balance when no swap is waiting to be committed in the view.
   */
  lemma PredictionIsCommit(c: Channel, v: Side, lane: nat, p: Side)
    requires c.WellFormed() && lane < c.Lanes()
    ensures var pool := Gather(c.htlcs, v, Some(lane));
            Predicted(c, v, lane, pool, p) <= Change(c, CommitStep(v)).Owed(v, lane, p)
    ensures var pool := Gather(c.htlcs, v, Some(lane));
            (forall o: Side :: c.swaps.At(o).Some? ==> Committed(c.swaps.At(o).value.state, v)) && c.req.None? ==>
              Predicted(c, v, lane, pool, p) == Change(c, CommitStep(v)).Owed(v, lane, p)
  {
    hide Sum, StepTable, RemovingTable, AddingTable, PromisedBy, SwapStepEffect, Gather, Committed, Change;
    CommitOwed(c, v, lane, p);
    PendingIsStep(c.htlcs, v, lane, p);
    SwapStepWithinPromise(c.swaps.local, v, lane, p);
    SwapStepWithinPromise(c.swaps.remote, v, lane, p);
    RequestPromises(c.req, v, lane, p);
    assert c.swaps.At(Local) == c.swaps.local && c.swaps.At(Remote) == c.swaps.remote;
  }

  lemma CommitOwed(c: Channel, v: Side, lane: nat, p: Side)
    requires c.Sized() && lane < c.Lanes()
    ensures Change(c, CommitStep(v)).Owed(v, lane, p) == StepOwed(c, CommitStep(v), lane, p)
  {
    hide StepOwed, StepHtlcs, StepHeights;
  }

  // ---- add_htlc

  datatype AddErr =
    | AddOk
    | InvalidExpiry
    | Duplicate
    | DuplicateIdDifferent
    | HtlcBelowMinimum
    | MaxHtlcValueExceeded
    | TooManyHtlcs
    | CapacityExceeded
    | DustFailure

  const LOCKTIME_THRESHOLD := 500_000_000
  const ANCHORS_MSAT := 660_000
  const U64_LIMIT := 0x1_0000_0000_0000_0000

  /** One side's limits. */
  datatype Limits = Limits(htlcMinimum: nat, maxAcceptedHtlcs: nat, maxInFlight: nat)

  /**
    The channel's settings (`reserve` is what each side must keep, credit floor included), with what is
    computed elsewhere as functions: whether an HTLC of an owner and amount is trimmed from a side's commitment
    (at the current or the ceiling feerate), and the fee of a side's commitment with so many HTLC outputs (now, or
    with headroom), in millisatoshi.
   */
  datatype Config = Config(
    limits: Pair<Limits>,
    reserve: Pair<nat>,
    maxPayment: nat,
    wumbo: bool,
    anchors: bool,
    maxDustExposure: nat,
    trims: (Side, Side, nat) -> bool,
    trimsAtCeiling: (Side, Side, nat) -> bool,
    baseFee: (Side, nat) -> nat,
    headroomFee: nat -> nat)

  function AmountTable(htlcs: map<Key, Htlc>, owner: Side): map<Key, int> {
    map k | k in htlcs && Owner(htlcs[k].state) == owner :: htlcs[k].amount
  }

  predicate IsTrimmed(cfg: Config, h: Htlc, side: Side) {
    cfg.trims(side, Owner(h.state), h.amount)
  }

  function UntrimmedKeys(cfg: Config, htlcs: map<Key, Htlc>, side: Side): set<Key> {
    set k | k in htlcs && !IsTrimmed(cfg, htlcs[k], side)
  }

  /** `num_untrimmed_htlcs`. */
  function Untrimmed(cfg: Config, pool: Pool, side: Side): int {
    |UntrimmedKeys(cfg, pool.committed, side)| + |UntrimmedKeys(cfg, pool.adding, side)|
    - |UntrimmedKeys(cfg, pool.removing, side)|
  }

  function Natural(n: int): nat {
    if n < 0 then 0 else n
  }

  /** `fee_for_htlcs`. */
  function Fee(cfg: Config, pool: Pool, side: Side): nat {
    cfg.baseFee(side, Natural(Untrimmed(cfg, pool, side)))
  }

  function DustTable(cfg: Config, htlcs: map<Key, Htlc>, side: Side): map<Key, int> {
    map k | k in htlcs && cfg.trimsAtCeiling(side, Owner(htlcs[k].state), htlcs[k].amount) :: htlcs[k].amount
  }

  /** `htlc_dust`: the trimmed total, or nothing if it does not fit. */
  ghost function Dust(cfg: Config, pool: Pool, side: Side): Option<int> {
    var total := Sum(DustTable(cfg, pool.committed, side)) + Sum(DustTable(cfg, pool.adding, side));
    var removed := Sum(DustTable(cfg, pool.removing, side));
    if total >= U64_LIMIT || removed >= U64_LIMIT || total < removed then None else Some(total - removed)
  }

  /** `get_room_above_reserve` with no splice pending: what is left above the reserve, if anything is. */
  ghost function Room(cfg: Config, c: Channel, v: Side, pool: Pool, p: Side): Option<int>
    requires |c.view.local| == |c.view.remote| > 0
  {
    if c.Owed(v, 0, p) <= 0 then None
    else
      var balance := Predicted(c, v, 0, pool, p);
      if balance < 0 || balance < cfg.reserve.At(p) then None
      else Some(balance - cfg.reserve.At(p))
  }

  /** The part of `add_htlc` that enforces what the sender and the opener can afford in lane 0. */
  ghost predicate Affordable(cfg: Config, c: Channel, sender: Side, pool: Pool)
    requires |c.view.local| == |c.view.remote| > 0
  {
    var v := sender.Other();
    var room := Room(cfg, c, v, pool, sender);
    && room.Some?
    && (c.opener == sender ==>
          && (cfg.anchors ==> ANCHORS_MSAT <= room.value)
          && var left := room.value - if cfg.anchors then ANCHORS_MSAT else 0;
          && Fee(cfg, pool, v) <= left
          && (sender.Local? ==> cfg.headroomFee(Natural(Untrimmed(cfg, pool, Local)) + 1) <= left))
    && (sender.Local? ==>
          var openerRoom := Room(cfg, c, v, pool, c.opener);
          && openerRoom.Some?
          && (cfg.anchors && c.opener != sender ==> ANCHORS_MSAT <= openerRoom.value)
          && var left := openerRoom.value - if cfg.anchors && c.opener != sender then ANCHORS_MSAT else 0;
          && Fee(cfg, pool, c.opener) <= left
          && Fee(cfg, pool, c.opener.Other()) <= left)
  }

  ghost predicate InFlightFits(pool: Pool, sender: Side) {
    var committed, adding := Sum(AmountTable(pool.committed, sender)), Sum(AmountTable(pool.adding, sender));
    var removing := Sum(AmountTable(pool.removing, sender));
    && committed < U64_LIMIT && removing < U64_LIMIT && adding < U64_LIMIT
    && committed + adding < U64_LIMIT
    && removing <= committed + adding
  }

  ghost function InFlight(pool: Pool, sender: Side): int {
    Sum(AmountTable(pool.committed, sender)) + Sum(AmountTable(pool.adding, sender))
    - Sum(AmountTable(pool.removing, sender))
  }

  /** More would be trimmed, from one commitment or the other, than we want exposed. */
  ghost predicate TooDusty(cfg: Config, pool: Pool, sender: Side) {
    var theirs, own := Dust(cfg, pool, sender.Other()), Dust(cfg, pool, sender);
    || (theirs.Some? && theirs.value > cfg.maxDustExposure)
    || (own.Some? && own.value > cfg.maxDustExposure)
  }

  /** The recipient's view of the HTLC's lane, with the new HTLC among those being added. */
  function PoolWith(c: Channel, k: Key, h: Htlc): Pool {
    var pool := Gather(c.htlcs, Owner(h.state).Other(), Some(h.lane));
    pool.(adding := pool.adding[k := h])
  }

  /** The part of `add_htlc` that is about the channel's own lane. */
  ghost function OwnLaneResult(cfg: Config, c: Channel, pool: Pool, sender: Side, enforce: bool,
      errImmediate: bool): AddErr
    requires |c.view.local| == |c.view.remote| > 0
  {
    var recipient := sender.Other();
    if !InFlightFits(pool, sender) then MaxHtlcValueExceeded
    else if enforce && InFlight(pool, sender) > cfg.limits.At(recipient).maxInFlight then MaxHtlcValueExceeded
    else if enforce && !Affordable(cfg, c, sender, pool) then CapacityExceeded
    else if Dust(cfg, pool, recipient).None? then CapacityExceeded
    else if Dust(cfg, pool, recipient).value > cfg.maxDustExposure && errImmediate then DustFailure
    else if Dust(cfg, pool, sender).None? then CapacityExceeded
    else if Dust(cfg, pool, sender).value > cfg.maxDustExposure && errImmediate then DustFailure
    else AddOk
  }

  /** `add_htlc`: every refusal, in the order the code reaches it. */
  ghost function AddResult(cfg: Config, c: Channel, k: Key, h: Htlc, enforce: bool, errImmediate: bool): AddErr
    requires |c.view.local| == |c.view.remote| > 0
  {
    var sender := Owner(h.state);
    var recipient := sender.Other();
    if h.lane >= c.Lanes() then CapacityExceeded
    else if h.expiry >= LOCKTIME_THRESHOLD then InvalidExpiry
    else if k in c.htlcs then
      var was := c.htlcs[k];
      if was.state != h.state || was.amount != h.amount || was.expiry != h.expiry || was.rhash != h.rhash
      then DuplicateIdDifferent else Duplicate
    else if h.amount == 0 || h.amount < cfg.limits.At(recipient).htlcMinimum then HtlcBelowMinimum
    else if sender.Local? && h.amount > cfg.maxPayment && !cfg.wumbo then MaxHtlcValueExceeded
    else
      var count := NumOther(c.htlcs, recipient, None);
      var pool := PoolWith(c, k, h);
      if count + 1 > cfg.limits.At(recipient).maxAcceptedHtlcs then TooManyHtlcs
      else if enforce && sender.Local? && count + 1 > cfg.limits.local.maxAcceptedHtlcs then TooManyHtlcs
      else if h.lane != 0 then
        if enforce && Predicted(c, recipient, h.lane, pool, sender) < 0 then CapacityExceeded else AddOk
      else OwnLaneResult(cfg, c, pool, sender, enforce, errImmediate)
  }

  // ---- channel_sym_swap_check

  datatype SwapErr = SwapOk | OneAsset | SwapInFlight | BadLanes | EmptyLeg | CannotPay(payer: Side)

  /** `swap_affordable` in one view.  Removals are left out. */
  ghost predicate SwapAffordableIn(cfg: Config, c: Channel, v: Side, payer: Side, lane: nat, amount: Msat)
    requires |c.view.local| == |c.view.remote| && lane < c.Lanes()
  {
    var left := c.Owed(v, lane, payer) + Sum(AddingTable(Gather(c.htlcs, v, Some(lane)), payer))
                - Promised(c, v, lane, payer) - amount;
    0 <= left && (lane == 0 ==> cfg.reserve.At(payer) <= left)
  }

  ghost predicate SwapAffordable(cfg: Config, c: Channel, payer: Side, lane: nat, amount: Msat)
    requires |c.view.local| == |c.view.remote| && lane < c.Lanes()
  {
    SwapAffordableIn(cfg, c, Local, payer, lane, amount) && SwapAffordableIn(cfg, c, Remote, payer, lane, amount)
  }

  ghost function SwapCheck(cfg: Config, c: Channel, s: Swap): SwapErr
    requires |c.view.local| == |c.view.remote|
  {
    var owner := Owner(s.state);
    if c.Lanes() <= 1 then OneAsset
    else if c.swaps.local.Some? || c.swaps.remote.Some? then SwapInFlight
    else if s.giveLane == s.takeLane || s.giveLane >= c.Lanes() || s.takeLane >= c.Lanes() then BadLanes
    else if s.give == 0 || s.take == 0 then EmptyLeg
    else if !SwapAffordable(cfg, c, owner, s.giveLane, s.give) then CannotPay(owner)
    else if !SwapAffordable(cfg, c, owner.Other(), s.takeLane, s.take) then CannotPay(owner.Other())
    else SwapOk
  }

  // ---- What acceptance means for the balances

  /** An HTLC put where the step moved nothing adds its own entry to the step's table, and nothing else. */
  lemma PutInTable(htlcs: map<Key, Htlc>, k: Key, h: Htlc, step: Step, lane: nat, p: Side)
    requires k in htlcs ==> !step.Moves(htlcs[k].state)
    ensures Sum(StepTable(htlcs[k := h], step, lane, p)) ==
            Sum(StepTable(htlcs, step, lane, p))
            + if step.Moves(h.state) && h.lane == lane then AdvanceEffect(h, step.Changes(), p) else 0
  {
    hide Sum, AdvanceEffect;
    var before, after := StepTable(htlcs, step, lane, p), StepTable(htlcs[k := h], step, lane, p);
    if step.Moves(h.state) && h.lane == lane {
      SumPut(before, k, AdvanceEffect(h, step.Changes(), p));
      assert after == before[k := AdvanceEffect(h, step.Changes(), p)];
    } else {
      assert after == before;
    }
  }

  lemma PoolWithTables(c: Channel, k: Key, h: Htlc, p: Side)
    requires k !in c.htlcs
    ensures var pool := Gather(c.htlcs, Owner(h.state).Other(), Some(h.lane));
            && RemovingTable(PoolWith(c, k, h), p) == RemovingTable(pool, p)
            && Sum(AddingTable(PoolWith(c, k, h), p)) == Sum(AddingTable(pool, p)) + AddEffect(h, p)
  {
    hide Sum, AddEffect;
    var pool := Gather(c.htlcs, Owner(h.state).Other(), Some(h.lane));
    SumPut(AddingTable(pool, p), k, AddEffect(h, p));
    assert AddingTable(PoolWith(c, k, h), p) == AddingTable(pool, p)[k := AddEffect(h, p)];
  }

  /** An accepted HTLC leaves its sender solvent in the recipient's view, promises included. */
  lemma AcceptedLeavesRoom(cfg: Config, c: Channel, k: Key, h: Htlc, errImmediate: bool)
    requires c.WellFormed() && h.state == OfferState(k.owner)
    requires AddResult(cfg, c, k, h, true, errImmediate) == AddOk
    ensures k !in c.htlcs && h.lane < c.Lanes()
    ensures var d := Offered(c, k, h);
            var v := k.owner.Other();
            0 <= d.Owed(v, h.lane, k.owner) + Sum(StepTable(d.htlcs, CommitStep(v), h.lane, k.owner))
                 - Promised(d, v, h.lane, k.owner)
  {
    hide Sum, InFlightFits, InFlight, Dust, NumOther, PoolWith, StepTable, RemovingTable, AddingTable;
    var v := k.owner.Other();
    PutInTable(c.htlcs, k, h, CommitStep(v), h.lane, k.owner);
    PendingIsStep(c.htlcs, v, h.lane, k.owner);
    PoolWithTables(c, k, h, k.owner);
    assert 0 <= Predicted(c, v, h.lane, PoolWith(c, k, h), k.owner);
  }
}
