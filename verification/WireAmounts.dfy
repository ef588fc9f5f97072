/**
  The room check of `add_htlc` as it is computed, in 64-bit signed integers, for any amount the peer may send.
 */
module WireAmounts {
  import opened Sides
  import opened HtlcStates
  import opened Sums
  import opened ChannelState
  import opened Admission
  import opened Runs
  import opened Solvency
  import opened Settlement
  import opened HtlcWalks
  import opened FullChannel
  import opened Restoring
  import opened Readmission

  /** What a 64-bit signed integer makes of a number. */
  function Signed(n: int): int {
    (n + S64_LIMIT) % U64_LIMIT - S64_LIMIT
  }

  /** Whether it wraps at each addition or once at the end is the same. */
  lemma SignedOnce(a: int, b: int)
    ensures Signed(Signed(a) + b) == Signed(a + b)
  {
  }

  /** The balance the sums come to before the new HTLC is taken from it, in plain numbers. */
  ghost function Before(c: Channel, lane: nat, sender: Side): int
    requires c.Sized() && lane < c.Lanes()
  {
    Predicted(c, sender.Other(), lane, Gather(c.htlcs, sender.Other(), Some(lane)), sender)
  }

  /** The sums wrapped: there is room if the result is not negative. */
  ghost predicate HasRoom(c: Channel, lane: nat, sender: Side, amount: int)
    requires c.Sized() && lane < c.Lanes()
  {
    0 <= Signed(Before(c, lane, sender) - amount)
  }

  lemma NoEffect(effect: Htlc -> int)
    ensures Sum(EffectTable(map[], effect)) == 0
  {
    assert EffectTable(map[], effect) == map[];
  }

  /** Running a 64-bit balance through a list of HTLCs. */
  method AppliedIn64(balance: int, ghost plain: int, htlcs: map<Key, Htlc>, effect: Htlc -> int) returns (after: int)
    requires balance == Signed(plain)
    ensures after == Signed(plain + Sum(EffectTable(htlcs, effect)))
  {
    hide Sum, EffectTable, Walk, Signed;
    after := balance;
    var todo := htlcs;
    ghost var done: map<Key, Htlc> := map[];
    WalkStarts(htlcs);
    NoEffect(effect);
    while todo != map[]
      invariant Walk(htlcs, done, todo) && after == Signed(plain + Sum(EffectTable(done, effect)))
      decreases |todo|
    {
      var k :| k in todo;
      var h := todo[k];
      WalkOn(htlcs, done, todo, k);
      EffectPut(done, effect, k, h);
      SignedOnce(plain + Sum(EffectTable(done, effect)), effect(h));
      after := Signed(after + effect(h));
      done, todo := done[k := h], todo - {k};
    }
    WalkEnds(htlcs, done);
  }

  /**
    `lane_room`, and the first part of `get_room_above_reserve`: the sender's balance in the recipient's view, what is
    being removed and added, the new HTLC, and what swaps were promised, one 64-bit operation after the other.
   */
  method LaneRoom(channel: LiveChannel, lane: nat, sender: Side, amount: int) returns (ok: bool)
    requires channel.Valid() && lane < channel.State().Lanes()
    ensures ok == HasRoom(channel.State(), lane, sender, amount)
  {
    hide Sum, EffectTable, RemovingTable, AddingTable, Gather, Promised, Signed;
    var recipient := sender.Other();
    var pool, _ := channel.GatherLane(recipient, Some(lane));
    var removes, adds := (h: Htlc) => RemoveEffect(h, sender), (h: Htlc) => AddEffect(h, sender);
    TablesAre(pool, sender, removes, adds);
    ghost var plain: int := channel.view.At(recipient)[lane].At(sender);
    var balance := Signed(channel.view.At(recipient)[lane].At(sender));
    balance := AppliedIn64(balance, plain, pool.removing, removes);
    plain := plain + Sum(RemovingTable(pool, sender));
    balance := AppliedIn64(balance, plain, pool.adding, adds);
    plain := plain + Sum(AddingTable(pool, sender));
    SignedOnce(plain, -amount);
    balance := Signed(balance - amount);
    var promised := channel.SwapPromised(recipient, lane, sender);
    SignedOnce(plain - amount, -(promised as int));
    balance := Signed(balance - promised);
    assert Before(channel.State(), lane, sender) == plain - promised;
    return balance >= 0;
  }

  lemma TablesAre(pool: Pool, p: Side, removes: Htlc -> int, adds: Htlc -> int)
    requires forall h :: removes(h) == RemoveEffect(h, p) && adds(h) == AddEffect(h, p)
    ensures EffectTable(pool.removing, removes) == RemovingTable(pool, p)
    ensures EffectTable(pool.adding, adds) == AddingTable(pool, p)
  {
  }

  lemma BeforeIsSmall(cfg: Config, ns: seq<Node>, acts: seq<Action>, i: nat, lane: nat, sender: Side)
    requires IsRun(cfg, ns, acts) && i < |ns| && lane < |ns[0].base| && BaseTotal(ns[0].base, lane) < S64_LIMIT
    ensures ns[i].chan.Sized() && lane < ns[i].chan.Lanes()
    ensures -S64_LIMIT < Before(ns[i].chan, lane, sender) < S64_LIMIT
    ensures ns[i].chan.req.None? ==> 0 <= Before(ns[i].chan, lane, sender)
  {
    hide IsRun, Sum, StepTable, RemovingTable, AddingTable, Gather, Walk, PromisedBy;
    var c, v := ns[i].chan, sender.Other();
    WalkAll(c.htlcs);
    NoBalanceWraps(cfg, ns, acts, i, v, lane, sender, c.htlcs, map[]);
    PendingIsStep(c.htlcs, v, lane, sender);
    RunIsSolvent(cfg, ns, acts, i, v, lane);
    RequestIsSmall(c.req, v, lane, sender);
    RequestIsSmall(c.swaps.local, v, lane, sender);
    RequestIsSmall(c.swaps.remote, v, lane, sender);
  }

  lemma WalkAll(all: map<Key, Htlc>)
    ensures Walk(all, all, map[])
  {
  }

  lemma RunIsSolvent(cfg: Config, ns: seq<Node>, acts: seq<Action>, i: nat, v: Side, lane: nat)
    requires IsRun(cfg, ns, acts) && i < |ns| && ns[i].chan.Sized() && lane < ns[i].chan.Lanes()
    ensures Solvent(ns[i].chan, v, lane)
  {
    hide IsRun, Solvent, Marked, Resting;
    RunKeepsInv(cfg, ns, acts, i);
  }

  lemma RequestIsSmall(s: Option<Swap>, v: Side, lane: nat, p: Side)
    ensures 0 <= PromisedBy(s, v, lane, p) < S64_LIMIT && (s.None? ==> PromisedBy(s, v, lane, p) == 0)
  {
  }

  /**
    At any point of any run, for any 64-bit amount: the room check is right if and only if the amount is no more than
    2^63 above the balance.  (Or 2^64, which takes a negative balance; without a swap request outstanding there is
    none.)  So it is right about every amount up to 2^63 when no swap request is outstanding.
   */
  lemma RoomIsRightIff(cfg: Config, ns: seq<Node>, acts: seq<Action>, i: nat, lane: nat, sender: Side, amount: int)
    requires IsRun(cfg, ns, acts) && i < |ns| && lane < |ns[0].base| && BaseTotal(ns[0].base, lane) < S64_LIMIT
    requires 0 <= amount < U64_LIMIT
    ensures ns[i].chan.Sized() && lane < ns[i].chan.Lanes()
    ensures var c := ns[i].chan;
            var before := Before(c, lane, sender);
            && ((HasRoom(c, lane, sender, amount) <==> amount <= before) <==>
                amount <= before + S64_LIMIT || before + U64_LIMIT < amount)
            && (c.req.None? && amount <= S64_LIMIT ==> (HasRoom(c, lane, sender, amount) <==> amount <= before))
  {
    hide IsRun, Before;
    BeforeIsSmall(cfg, ns, acts, i, lane, sender);
  }

  /** In a new channel where the peer has 10 in lane 1, there is room for 2^64 - 1. */
  lemma LargeAmountPasses() returns (ns: seq<Node>)
    ensures |ns| == 1 && IsRun(ONE_EACH, ns, []) && ns[0].chan.Sized() && ns[0].chan.Lanes() == 2
    ensures Before(ns[0].chan, 1, Remote) == 10 < U64_LIMIT - 1
    ensures HasRoom(ns[0].chan, 1, Remote, U64_LIMIT - 1)
  {
    ns := [NewNode()];
    var pool := Gather(ns[0].chan.htlcs, Local, Some(1));
    assert RemovingTable(pool, Remote) == map[] && AddingTable(pool, Remote) == map[];
  }
}
