/** The loops over HTLCs that the admission checks are made of: gathering, adding up, counting. */
module HtlcWalks {
  import opened Sides
  import opened HtlcStates
  import opened Sums
  import opened ChannelState
  import opened Admission

  // ---- Walking an HTLC map

  /** A walk over `all` has seen `done` and has `todo` left. */
  ghost predicate Walk(all: map<Key, Htlc>, done: map<Key, Htlc>, todo: map<Key, Htlc>) {
    && (forall k :: k in all ==> k in done || k in todo)
    && (forall k :: k in done ==> k in all && all[k] == done[k] && k !in todo)
    && (forall k :: k in todo ==> k in all && all[k] == todo[k])
  }

  lemma WalkOn(all: map<Key, Htlc>, done: map<Key, Htlc>, todo: map<Key, Htlc>, k: Key)
    requires Walk(all, done, todo) && k in todo
    ensures k !in done && k in all && all[k] == todo[k]
    ensures Walk(all, done[k := todo[k]], todo - {k})
  {
  }

  lemma WalkEnds(all: map<Key, Htlc>, done: map<Key, Htlc>)
    requires Walk(all, done, map[])
    ensures done == all
  {
  }

  lemma WalkStarts(all: map<Key, Htlc>)
    ensures Walk(all, map[], all)
  {
  }

  /** A part of a table without negative entries sums to no more than the table. */
  lemma PartIsLess(all: map<Key, int>, part: map<Key, int>)
    requires forall k :: k in all ==> 0 <= all[k]
    requires forall k :: k in part ==> k in all && all[k] == part[k]
    ensures Sum(part) <= Sum(all)
  {
    var rest := map k | k in all && k !in part :: all[k];
    SumUnion(all, part, rest);
    SumNonNegative(rest);
  }

  // ---- Sums over HTLCs

  function PickTable(htlcs: map<Key, Htlc>, pick: Htlc -> bool): map<Key, int> {
    map k | k in htlcs && pick(htlcs[k]) :: htlcs[k].amount
  }

  lemma PickPut(done: map<Key, Htlc>, pick: Htlc -> bool, k: Key, h: Htlc)
    requires k !in done
    ensures Sum(PickTable(done[k := h], pick)) == Sum(PickTable(done, pick)) + if pick(h) then h.amount else 0
  {
    hide Sum;
    if pick(h) {
      SumPut(PickTable(done, pick), k, h.amount);
      assert PickTable(done[k := h], pick) == PickTable(done, pick)[k := h.amount];
    } else {
      assert PickTable(done[k := h], pick) == PickTable(done, pick);
    }
  }

  lemma PickPart(all: map<Key, Htlc>, done: map<Key, Htlc>, todo: map<Key, Htlc>, pick: Htlc -> bool)
    requires Walk(all, done, todo)
    ensures 0 <= Sum(PickTable(done, pick)) <= Sum(PickTable(all, pick))
  {
    hide Sum;
    PartIsLess(PickTable(all, pick), PickTable(done, pick));
    SumNonNegative(PickTable(done, pick));
  }

  lemma NothingPicked(pick: Htlc -> bool)
    ensures Sum(PickTable(map[], pick)) == 0
  {
  }

  /** The amounts of some of the HTLCs on top of `start`, unless they do not fit in 64 bits. */
  method Total(htlcs: map<Key, Htlc>, pick: Htlc -> bool, start: nat) returns (total: Option<nat>)
    requires start < U64_LIMIT
    ensures var sum := start + Sum(PickTable(htlcs, pick));
            && total.Some? == (sum < U64_LIMIT)
            && (total.Some? ==> total.value == sum)
  {
    hide Sum, PickTable, Walk;
    var sum := start;
    var todo := htlcs;
    ghost var done: map<Key, Htlc> := map[];
    WalkStarts(htlcs);
    NothingPicked(pick);
    while todo != map[]
      invariant Walk(htlcs, done, todo) && 0 <= sum == start + Sum(PickTable(done, pick)) < U64_LIMIT
      decreases |todo|
    {
      var k :| k in todo;
      var h := todo[k];
      WalkOn(htlcs, done, todo, k);
      PickPut(done, pick, k, h);
      if pick(h) {
        sum := sum + h.amount;
      }
      done, todo := done[k := h], todo - {k};
      if sum >= U64_LIMIT {
        PickPart(htlcs, done, todo, pick);
        return None;
      }
    }
    WalkEnds(htlcs, done);
    return Some(sum);
  }

  /** `sum_offered_msatoshis`. */
  method SumOffered(htlcs: map<Key, Htlc>, side: Side) returns (total: Option<nat>)
    ensures var sum := Sum(AmountTable(htlcs, side));
            && total.Some? == (sum < U64_LIMIT)
            && (total.Some? ==> total.value == sum)
  {
    hide Sum;
    var pick := (h: Htlc) => Owner(h.state) == side;
    total := Total(htlcs, pick, 0);
    assert PickTable(htlcs, pick) == AmountTable(htlcs, side);
  }

  function Trimmed(cfg: Config, side: Side): Htlc -> bool {
    (h: Htlc) => cfg.trimsAtCeiling(side, Owner(h.state), h.amount)
  }

  lemma DustIsPicked(cfg: Config, htlcs: map<Key, Htlc>, side: Side)
    ensures Sum(DustTable(cfg, htlcs, side)) == Sum(PickTable(htlcs, Trimmed(cfg, side))) >= 0
  {
    hide Sum;
    assert PickTable(htlcs, Trimmed(cfg, side)) == DustTable(cfg, htlcs, side);
    SumNonNegative(DustTable(cfg, htlcs, side));
  }

  /** `htlc_dust`. */
  method DustOf(cfg: Config, pool: Pool, side: Side) returns (dust: Option<int>)
    ensures dust == Dust(cfg, pool, side)
  {
    hide Sum, PickTable, DustTable;
    var trimmed := Trimmed(cfg, side);
    DustIsPicked(cfg, pool.committed, side);
    DustIsPicked(cfg, pool.adding, side);
    DustIsPicked(cfg, pool.removing, side);
    var committed := Total(pool.committed, trimmed, 0);
    if committed.None? { return None; }
    var total := Total(pool.adding, trimmed, committed.value);
    if total.None? { return None; }
    var removed := Total(pool.removing, trimmed, 0);
    if removed.None? || total.value < removed.value { return None; }
    return Some(total.value - removed.value);
  }

  lemma UntrimmedPut(cfg: Config, done: map<Key, Htlc>, side: Side, k: Key, h: Htlc)
    requires k !in done
    ensures |UntrimmedKeys(cfg, done[k := h], side)| ==
            |UntrimmedKeys(cfg, done, side)| + if IsTrimmed(cfg, h, side) then 0 else 1
  {
    hide IsTrimmed;
    var before, after := UntrimmedKeys(cfg, done, side), UntrimmedKeys(cfg, done[k := h], side);
    assert after == if IsTrimmed(cfg, h, side) then before else before + {k};
    assert k !in before;
  }

  /** `commit_tx_num_untrimmed`. */
  method NumUntrimmed(cfg: Config, htlcs: map<Key, Htlc>, side: Side) returns (n: nat)
    ensures n == |UntrimmedKeys(cfg, htlcs, side)|
  {
    n := 0;
    var todo := htlcs;
    ghost var done: map<Key, Htlc> := map[];
    WalkStarts(htlcs);
    assert UntrimmedKeys(cfg, done, side) == {};
    hide UntrimmedKeys, Walk;
    while todo != map[]
      invariant Walk(htlcs, done, todo) && n == |UntrimmedKeys(cfg, done, side)|
      decreases |todo|
    {
      var k :| k in todo;
      var h := todo[k];
      WalkOn(htlcs, done, todo, k);
      UntrimmedPut(cfg, done, side, k, h);
      if !IsTrimmed(cfg, h, side) {
        n := n + 1;
      }
      done, todo := done[k := h], todo - {k};
    }
    WalkEnds(htlcs, done);
  }

  /** `num_untrimmed_htlcs`. */
  method NumUntrimmedIn(cfg: Config, pool: Pool, side: Side) returns (n: int)
    ensures n == Untrimmed(cfg, pool, side)
  {
    var committed := NumUntrimmed(cfg, pool.committed, side);
    var adding := NumUntrimmed(cfg, pool.adding, side);
    var removing := NumUntrimmed(cfg, pool.removing, side);
    n := committed as int + adding - removing;
  }

  // ---- Balances with what is pending

  function EffectTable(htlcs: map<Key, Htlc>, effect: Htlc -> int): map<Key, int> {
    map k | k in htlcs :: effect(htlcs[k])
  }

  lemma EffectPut(done: map<Key, Htlc>, effect: Htlc -> int, k: Key, h: Htlc)
    requires k !in done
    ensures Sum(EffectTable(done[k := h], effect)) == Sum(EffectTable(done, effect)) + effect(h)
  {
    hide Sum;
    SumPut(EffectTable(done, effect), k, effect(h));
    assert EffectTable(done[k := h], effect) == EffectTable(done, effect)[k := effect(h)];
  }

  /** Running a balance through a list of HTLCs. */
  method Applied(balance: int, htlcs: map<Key, Htlc>, effect: Htlc -> int) returns (after: int)
    ensures after == balance + Sum(EffectTable(htlcs, effect))
  {
    after := balance;
    var todo := htlcs;
    ghost var done: map<Key, Htlc> := map[];
    WalkStarts(htlcs);
    assert Sum(EffectTable(done, effect)) == 0;
    hide Sum, EffectTable, Walk;
    while todo != map[]
      invariant Walk(htlcs, done, todo) && after == balance + Sum(EffectTable(done, effect))
      decreases |todo|
    {
      var k :| k in todo;
      var h := todo[k];
      WalkOn(htlcs, done, todo, k);
      EffectPut(done, effect, k, h);
      after := after + effect(h);
      done, todo := done[k := h], todo - {k};
    }
    WalkEnds(htlcs, done);
  }

  method RemovedFrom(balance: int, pool: Pool, p: Side) returns (after: int)
    ensures after == balance + Sum(RemovingTable(pool, p))
  {
    var effect := (h: Htlc) => RemoveEffect(h, p);
    assert EffectTable(pool.removing, effect) == RemovingTable(pool, p);
    hide Sum, EffectTable, RemovingTable;
    after := Applied(balance, pool.removing, effect);
  }

  method AddedTo(balance: int, pool: Pool, p: Side) returns (after: int)
    ensures after == balance + Sum(AddingTable(pool, p))
  {
    var effect := (h: Htlc) => AddEffect(h, p);
    assert EffectTable(pool.adding, effect) == AddingTable(pool, p);
    hide Sum, EffectTable, AddingTable;
    after := Applied(balance, pool.adding, effect);
  }

  // ---- Gathering

  lemma CommittedPut(done: map<Key, Htlc>, k: Key, h: Htlc, v: Side, lane: Option<nat>)
    requires k !in done
    ensures var before := Gather(done, v, lane).committed;
            Gather(done[k := h], v, lane).committed ==
            if InLane(h, lane) && Committed(h.state, v) then before[k := h] else before
  {
    hide Committed, Pending, InLane;
  }

  lemma RemovingPut(done: map<Key, Htlc>, k: Key, h: Htlc, v: Side, lane: Option<nat>)
    requires k !in done
    ensures var before := Gather(done, v, lane).removing;
            Gather(done[k := h], v, lane).removing ==
            if InLane(h, lane) && Committed(h.state, v) && Pending(h.state, v) then before[k := h] else before
  {
    hide Committed, Pending, InLane;
  }

  lemma AddingPut(done: map<Key, Htlc>, k: Key, h: Htlc, v: Side, lane: Option<nat>)
    requires k !in done
    ensures var before := Gather(done, v, lane).adding;
            Gather(done[k := h], v, lane).adding ==
            if InLane(h, lane) && !Committed(h.state, v) && Pending(h.state, v) then before[k := h] else before
  {
    hide Committed, Pending, InLane;
  }

  predicate CountsAsOther(h: Htlc, v: Side, lane: Option<nat>) {
    InLane(h, lane) && Owner(h.state) != v && Committed(h.state, v) != Pending(h.state, v)
  }

  function OtherKeys(htlcs: map<Key, Htlc>, v: Side, lane: Option<nat>): set<Key> {
    set k | k in htlcs && CountsAsOther(htlcs[k], v, lane)
  }

  lemma NumOtherIsOtherKeys(htlcs: map<Key, Htlc>, v: Side, lane: Option<nat>)
    ensures NumOther(htlcs, v, lane) == |OtherKeys(htlcs, v, lane)|
  {
    hide Committed, Pending, InLane;
    assert OtherKeys(htlcs, v, lane) ==
           set k | k in htlcs && InLane(htlcs[k], lane) && Owner(htlcs[k].state) != v
                   && Committed(htlcs[k].state, v) != Pending(htlcs[k].state, v);
  }

  lemma NumOtherPut(done: map<Key, Htlc>, k: Key, h: Htlc, v: Side, lane: Option<nat>)
    requires k !in done
    ensures NumOther(done[k := h], v, lane) == NumOther(done, v, lane) + if CountsAsOther(h, v, lane) then 1 else 0
  {
    NumOtherIsOtherKeys(done, v, lane);
    NumOtherIsOtherKeys(done[k := h], v, lane);
    hide NumOther, CountsAsOther;
    var before, after := OtherKeys(done, v, lane), OtherKeys(done[k := h], v, lane);
    assert after == if CountsAsOther(h, v, lane) then before + {k} else before;
  }

  lemma NothingGathered(v: Side, lane: Option<nat>)
    ensures Gather(map[], v, lane) == Pool(map[], map[], map[]) && NumOther(map[], v, lane) == 0
  {
    var none: map<Key, Htlc> := map[];
    assert (set k | k in none && InLane(none[k], lane) && Owner(none[k].state) != v
                    && Committed(none[k].state, v) != Pending(none[k].state, v)) == {};
  }
}
