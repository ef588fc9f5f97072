/** Block-height updates: a slot per state, moved from slot to slot by the commit and revoke steps. */
module Heights {
  import opened Sides
  import opened HtlcStates
  import opened ChannelState
  import opened Messages

  /** `last_fee_state`; the first is `OfferState`. */
  function LastState(opener: Side): HtlcState {
    if opener.Local? then SENT_ADD_ACK_REVOCATION else RCVD_ADD_ACK_REVOCATION
  }

  /** The slots as a map. */
  function AsMap(slots: seq<Option<nat>>): map<HtlcState, nat>
    requires |slots| == 20
  {
    map s: HtlcState | 0 <= s < 20 && slots[s].Some? :: slots[s].value
  }

  /** `struct height_states`. */
  class HeightStates {
    const slots: array<Option<nat>>

    ghost predicate Valid()
      reads this
    {
      slots.Length == 20
    }

    ghost function Contents(): map<HtlcState, nat>
      requires Valid()
      reads this, slots
    {
      AsMap(slots[..])
    }

    /** `new_height_states`. */
    constructor (opener: Side, height: Option<nat>)
      ensures Valid() && fresh(slots)
      ensures Contents() == if height.Some? then map[LastState(opener) := height.value] else map[]
    {
      slots := new Option<nat>[20](_ => None);
      new;
      if height.Some? {
        slots[LastState(opener)] := height;
      }
    }

    /** `get_blockheight`; nothing is the call to abort. */
    method GetBlockheight(opener: Side, side: Side) returns (height: Option<nat>)
      requires Valid()
      ensures height == HeightFrom(Contents(), OfferState(opener), side)
    {
      var first := OfferState(opener);
      ghost var hs := Contents();
      for s := first to first + 5
        invariant forall t: HtlcState :: first <= t < s && t in hs ==> !Committed(t, side)
      {
        if slots[s].None? || !Committed(s, side) { continue; }
        assert s in hs && hs[s] == slots[s].value;
        return slots[s];
      }
      return None;
    }

    /** `start_height_update`. */
    method StartHeightUpdate(opener: Side, height: nat)
      requires Valid()
      modifies slots
      ensures Contents() == old(Contents())[OfferState(opener) := height]
    {
      slots[OfferState(opener)] := Some(height);
    }

    /** `blockheight_changes_done`: exactly one slot is in use. */
    method ChangesDone(ignoreUncommitted: bool) returns (done: bool)
      requires Valid()
      ensures var hs := if ignoreUncommitted then Contents() - {SENT_ADD_HTLC, RCVD_ADD_HTLC} else Contents();
              done <==> |hs| == 1
    {
      var n := 0;
      ghost var seen: set<HtlcState> := {};
      for i := 0 to 20
        invariant n == |seen|
        invariant forall s: HtlcState :: s in seen <==>
                    s < i && s in Contents() && !(ignoreUncommitted && (s == RCVD_ADD_HTLC || s == SENT_ADD_HTLC))
      {
        if ignoreUncommitted && (i == RCVD_ADD_HTLC || i == SENT_ADD_HTLC) { continue; }
        if slots[i].Some? {
          n := n + 1;
          seen := seen + {i};
        }
      }
      ghost var hs := if ignoreUncommitted then Contents() - {SENT_ADD_HTLC, RCVD_ADD_HTLC} else Contents();
      assert hs.Keys == seen;
      KeysCount(hs);
      return n == 1;
    }

    /** `inc_height_state`. */
    method IncHeightState(s: HtlcState) returns (moved: bool)
      requires Valid() && IsAdding(s)
      modifies slots
      ensures moved == (s in old(Contents()))
      ensures Contents() == IncHeight(old(Contents()), s)
    {
      if slots[s].None? {
        assert s !in Contents();
        return false;
      }
      ghost var before := Contents();
      assert s in before;
      slots[s + 1] := slots[s];
      slots[s] := None;
      assert Contents() == before[s + 1 := before[s]] - {s};
      return true;
    }
  }

  lemma KeysCount(hs: map<HtlcState, nat>)
    ensures |hs| == |hs.Keys|
  {
  }

  // ---- Runs of the pipeline

  datatype HeightEvent = Start(height: nat) | Advance(step: Step)

  function NextHeights(hs: map<HtlcState, nat>, opener: Side, ev: HeightEvent): map<HtlcState, nat> {
    match ev
    case Start(height) => hs[OfferState(opener) := height]
    case Advance(step) => StepHeights(hs, step)
  }

  /** Any order of steps; an update starts only when the last one is done. */
  ghost predicate PipelineRun(opener: Side, height: nat, hss: seq<map<HtlcState, nat>>, evs: seq<HeightEvent>) {
    && |hss| == |evs| + 1
    && hss[0] == map[LastState(opener) := height]
    && forall i: nat :: i < |evs| ==>
       (evs[i].Start? ==> |hss[i]| == 1) && hss[i + 1] == NextHeights(hss[i], opener, evs[i])
  }

  /** The height started last. */
  function Latest(height: nat, evs: seq<HeightEvent>): nat {
    if evs == [] then height
    else if evs[|evs| - 1].Start? then evs[|evs| - 1].height
    else Latest(height, evs[..|evs| - 1])
  }

  predicate OnTheWay(opener: Side, s: HtlcState) {
    OfferState(opener) <= s < LastState(opener)
  }

  /** The last slot is in use, and the latest height is there or in the one other slot in use. */
  ghost predicate Flowing(hs: map<HtlcState, nat>, opener: Side, latest: nat) {
    && LastState(opener) in hs
    && ((hs.Keys == {LastState(opener)} && hs[LastState(opener)] == latest)
        || exists s: HtlcState :: && OnTheWay(opener, s) && s in hs && hs[s] == latest
                                  && hs.Keys == {LastState(opener), s})
  }

  lemma IncFlows(hs: map<HtlcState, nat>, opener: Side, latest: nat, s: HtlcState)
    requires Flowing(hs, opener, latest) && IsAdding(s)
    ensures Flowing(IncHeight(hs, s), opener, latest)
    ensures s in hs && s + 1 in hs ==> s + 1 == LastState(opener)
  {
    if s in hs {
      assert OnTheWay(opener, s);
      var hs' := IncHeight(hs, s);
      if s + 1 == LastState(opener) {
        assert hs'.Keys == {LastState(opener)};
      } else {
        assert OnTheWay(opener, s + 1) && hs'.Keys == {LastState(opener), s + 1};
      }
    }
  }

  lemma StepFlows(hs: map<HtlcState, nat>, opener: Side, latest: nat, step: Step)
    requires Flowing(hs, opener, latest)
    ensures Flowing(StepHeights(hs, step), opener, latest)
  {
    hide IncHeight, Flowing;
    match step
    case SendingCommit =>
      IncFlows(hs, opener, latest, SENT_ADD_REVOCATION);
      IncFlows(IncHeight(hs, SENT_ADD_REVOCATION), opener, latest, SENT_ADD_HTLC);
    case RcvdRevoke =>
      IncFlows(hs, opener, latest, SENT_ADD_ACK_COMMIT);
      IncFlows(IncHeight(hs, SENT_ADD_ACK_COMMIT), opener, latest, SENT_ADD_COMMIT);
    case RcvdCommit =>
      IncFlows(hs, opener, latest, RCVD_ADD_HTLC);
      IncFlows(IncHeight(hs, RCVD_ADD_HTLC), opener, latest, RCVD_ADD_REVOCATION);
    case SendingRevoke =>
      IncFlows(hs, opener, latest, RCVD_ADD_COMMIT);
      IncFlows(IncHeight(hs, RCVD_ADD_COMMIT), opener, latest, RCVD_ADD_ACK_COMMIT);
  }

  lemma StartFlows(hs: map<HtlcState, nat>, opener: Side, latest: nat, height: nat)
    requires Flowing(hs, opener, latest) && |hs| == 1
    ensures Flowing(hs[OfferState(opener) := height], opener, height)
  {
    OneSlot(hs, opener, latest);
    var hs' := hs[OfferState(opener) := height];
    assert OnTheWay(opener, OfferState(opener)) && hs'.Keys == {LastState(opener), OfferState(opener)};
  }

  lemma OneSlot(hs: map<HtlcState, nat>, opener: Side, latest: nat)
    requires Flowing(hs, opener, latest) && |hs| == 1
    ensures hs.Keys == {LastState(opener)} && hs[LastState(opener)] == latest
  {
    KeysCount(hs);
    assert forall s: HtlcState :: OnTheWay(opener, s) ==> |{LastState(opener), s}| == 2;
  }

  lemma {:induction false} RunFlows(opener: Side, height: nat, hss: seq<map<HtlcState, nat>>, evs: seq<HeightEvent>,
      i: nat)
    requires PipelineRun(opener, height, hss, evs) && i < |hss|
    ensures Flowing(hss[i], opener, Latest(height, evs[..i]))
  {
    if i > 0 {
      RunFlows(opener, height, hss, evs, i - 1);
      assert evs[..i][..i - 1] == evs[..i - 1];
      var latest := Latest(height, evs[..i - 1]);
      hide Flowing, StepHeights;
      match evs[i - 1]
      case Start(h) => StartFlows(hss[i - 1], opener, latest, h);
      case Advance(step) => StepFlows(hss[i - 1], opener, latest, step);
    }
  }

  lemma FlowingIsRead(hs: map<HtlcState, nat>, opener: Side, latest: nat, side: Side)
    requires Flowing(hs, opener, latest)
    ensures HeightFrom(hs, OfferState(opener), side).Some?
    ensures |hs| == 1 ==> HeightFrom(hs, OfferState(opener), side) == Some(latest)
  {
    if |hs| == 1 { OneSlot(hs, opener, latest); }
  }

  /**
    Every run that starts an update only when the last one is done: both sides always have a height to
    read, a step never drops a height except the one it replaces in the last state, and when the
    pipeline has drained both sides read the height that was started last.
   */
  lemma PipelineIsSound(opener: Side, height: nat, hss: seq<map<HtlcState, nat>>, evs: seq<HeightEvent>, i: nat)
    requires PipelineRun(opener, height, hss, evs) && i < |hss|
    ensures forall side: Side :: HeightFrom(hss[i], OfferState(opener), side).Some?
    ensures forall s: HtlcState :: IsAdding(s) && s in hss[i] && s + 1 in hss[i] ==> s + 1 == LastState(opener)
    ensures |hss[i]| == 1 ==>
              forall side: Side :: HeightFrom(hss[i], OfferState(opener), side) == Some(Latest(height, evs[..i]))
  {
    assert i <= |evs|;
    hide PipelineRun;
    RunFlows(opener, height, hss, evs, i);
    var latest := Latest(height, evs[..i]);
    forall side: Side
      ensures HeightFrom(hss[i], OfferState(opener), side).Some?
      ensures |hss[i]| == 1 ==> HeightFrom(hss[i], OfferState(opener), side) == Some(latest)
    {
      FlowingIsRead(hss[i], opener, latest, side);
    }
    forall s: HtlcState | IsAdding(s) && s in hss[i] && s + 1 in hss[i] ensures s + 1 == LastState(opener) {
      IncFlows(hss[i], opener, latest, s);
    }
  }

  /** Started before the first is done, a second update can run into it half way and drop it there. */
  lemma EarlyStartDropsAHeight()
    ensures var hs: map<HtlcState, nat> := map[SENT_ADD_ACK_REVOCATION := 100, SENT_ADD_HTLC := 101];
            var waiting := StepHeights(StepHeights(hs, SendingCommit), RcvdRevoke);
            var started := StepHeights(waiting[OfferState(Local) := 102], SendingCommit);
            && started == map[SENT_ADD_ACK_REVOCATION := 100, RCVD_ADD_REVOCATION := 101, SENT_ADD_COMMIT := 102]
            && StepHeights(started, RcvdRevoke) == map[SENT_ADD_ACK_REVOCATION := 100, RCVD_ADD_REVOCATION := 102]
  {
    var hs: map<HtlcState, nat> := map[SENT_ADD_ACK_REVOCATION := 100, SENT_ADD_HTLC := 101];
    assert StepHeights(hs, SendingCommit) == map[SENT_ADD_ACK_REVOCATION := 100, SENT_ADD_COMMIT := 101];
    var waiting := StepHeights(StepHeights(hs, SendingCommit), RcvdRevoke);
    assert waiting == map[SENT_ADD_ACK_REVOCATION := 100, RCVD_ADD_REVOCATION := 101];
  }
}
