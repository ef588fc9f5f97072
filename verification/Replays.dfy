/**
  What a queue without a commitment does to a channel, and how the updates in it can be sent again to a channel that
  has forgotten those it got before.
 */
module Replays {
  import opened Sides
  import opened HtlcStates
  import opened Sums
  import opened ChannelState
  import opened Runs
  import opened Solvency
  import opened Messages
  import opened Persistence

  predicate IsHtlcUpdate(m: Msg) {
    m.Add? || m.Remove?
  }

  /** Updates and revocations. */
  ghost predicate NoCommitment(q: seq<Msg>) {
    forall m :: m in q ==> IsHtlcUpdate(m) || m.Revocation?
  }

  ghost predicate OnlyUpdates(q: seq<Msg>) {
    forall m :: m in q ==> IsHtlcUpdate(m)
  }

  function Revocations(q: seq<Msg>): nat {
    if q == [] then 0 else Revocations(q[1..]) + if q[0].Revocation? then 1 else 0
  }

  /** No height is on its way: every height has reached its last state. */
  predicate SteadyHeights(hs: map<HtlcState, nat>) {
    forall s :: s in hs ==> s == SENT_ADD_ACK_REVOCATION || s == RCVD_ADD_ACK_REVOCATION
  }

  lemma SteadyStays(hs: map<HtlcState, nat>, step: Step)
    requires SteadyHeights(hs)
    ensures StepHeights(hs, step) == hs
  {
  }

  // ---- One HTLC

  /** What becomes of an HTLC: the revocation moves it, or a fulfil or fail arrives. */
  predicate Became(h: Htlc, g: Htlc, revoked: bool) {
    || g == h.(state := if revoked then RcvdRevoke.Bump(h.state) else h.state)
    || (h.state == 4 && g == h.(state := 5, fulfilled := g.fulfilled, failed := !g.fulfilled))
  }

  /** What becomes of them all.  Those that die are ours; those that are new are the peer's. */
  ghost predicate Came(z: map<Key, Htlc>, x: map<Key, Htlc>, revoked: bool) {
    && (forall k :: k in x && k !in z ==> k.owner.Remote? && x[k].state == 10 && !x[k].fulfilled && !x[k].failed)
    && (forall k :: k in z ==> (k in x <==> !(revoked && z[k].state == 8)))
    && (forall k :: k in z && k in x ==> Became(z[k], x[k], revoked))
  }

  /** HTLCs sit under their owner and none is dead. */
  ghost predicate Sound(htlcs: map<Key, Htlc>) {
    forall k :: k in htlcs ==> Owner(htlcs[k].state) == k.owner && !Dead(htlcs[k].state)
  }

  lemma RevokedCame(z: map<Key, Htlc>, x: map<Key, Htlc>)
    requires Sound(z) && Came(StepHtlcs(z, RcvdRevoke), x, false)
    ensures Came(z, x, true)
  {
    var y := StepHtlcs(z, RcvdRevoke);
    forall k | k in z ensures k in x <==> z[k].state != 8 {
    }
  }

  lemma AddedCame(z: map<Key, Htlc>, x: map<Key, Htlc>, k: Key, h: Htlc, revoked: bool)
    requires k !in z && k.owner.Remote? && h.state == 10 && !h.fulfilled && !h.failed && Came(z[k := h], x, revoked)
    ensures Came(z, x, revoked)
  {
  }

  lemma RemovedCame(z: map<Key, Htlc>, x: map<Key, Htlc>, k: Key, fulfil: bool, revoked: bool)
    requires k in z && z[k].state == 4
    requires Came(z[k := z[k].(state := 5, fulfilled := fulfil, failed := !fulfil)], x, revoked)
    ensures Came(z, x, revoked)
  {
  }

  lemma SoundAfter(c: Channel, m: Msg)
    requires c.Sized() && Sound(c.htlcs) && Fits(c, m) && (IsHtlcUpdate(m) || m.Revocation?)
    ensures Sound(Recv(c, m).htlcs)
  {
    hide StepView, StepHeights;
  }

  /** What a queue without a commitment does to the HTLCs. */
  lemma {:induction false} QueueCame(c: Channel, q: seq<Msg>)
    requires c.Sized() && Sound(c.htlcs) && FitsAll(c, q) && NoCommitment(q) && Revocations(q) <= 1
    ensures Came(c.htlcs, Deliver(c, q).htlcs, Revocations(q) == 1)
    decreases |q|
  {
    hide Came, Sound, StepView, StepHeights;
    if q == [] {
      NothingCame(c.htlcs);
    } else {
      var m, d, x := q[0], Recv(c, q[0]), Deliver(c, q).htlcs;
      assert m in q;
      SoundAfter(c, m);
      QueueCame(d, q[1..]);
      match m
      case Revocation =>
        hide StepHtlcs;
        RevokedCame(c.htlcs, x);
      case Add(id, h) =>
        AddedCame(c.htlcs, x, Key(Remote, id), h.(state := RCVD_ADD_HTLC), Revocations(q) == 1);
      case Remove(id, fulfil) =>
        RemovedCame(c.htlcs, x, Key(Local, id), fulfil, Revocations(q) == 1);
      case _ =>
    }
  }

  lemma NothingCame(z: map<Key, Htlc>)
    ensures Came(z, z, false)
  {
  }

  // ---- The rest of the channel

  /** The swaps after a revocation. */
  function Released(swaps: Pair<Option<Swap>>): Pair<Option<Swap>> {
    Pair(Forgotten(StepSwap(swaps.local, RcvdRevoke)), Forgotten(StepSwap(swaps.remote, RcvdRevoke)))
  }

  lemma RevokeLeaves(c: Channel)
    requires c.Sized() && SteadyHeights(c.heights)
    ensures var d := Recv(c, Revocation);
            d == c.(htlcs := StepHtlcs(c.htlcs, RcvdRevoke), swaps := Released(c.swaps))
  {
    RevokeMovesNoBalance(c, RcvdRevoke);
    SteadyStays(c.heights, RcvdRevoke);
    hide StepView, StepHeights, StepHtlcs;
  }

  /** It changes no balance and no height, and swaps only by the revocation. */
  lemma {:induction false} QueueLeaves(c: Channel, q: seq<Msg>)
    requires c.Sized() && FitsAll(c, q) && NoCommitment(q) && Revocations(q) <= 1 && SteadyHeights(c.heights)
    ensures var x := Deliver(c, q);
            x == c.(htlcs := x.htlcs, swaps := if Revocations(q) == 1 then Released(c.swaps) else c.swaps)
    decreases |q|
  {
    hide Released, StepView, StepHeights, StepHtlcs;
    if q != [] {
      var m := q[0];
      assert m in q;
      if m.Revocation? { RevokeLeaves(c); }
      QueueLeaves(Recv(c, m), q[1..]);
    }
  }

  // ---- What the HTLCs say about the messages

  lemma {:induction false} AddShows(c: Channel, q: seq<Msg>, id: nat, h: Htlc)
    requires c.Sized() && Sound(c.htlcs) && FitsAll(c, q) && NoCommitment(q) && Revocations(q) <= 1 && Add(id, h) in q
    ensures var x := Deliver(c, q).htlcs; Key(Remote, id) in x && x[Key(Remote, id)] == h.(state := 10)
    decreases |q|
  {
    hide Sound, StepView, StepHeights, StepHtlcs;
    var m, d := q[0], Recv(c, q[0]);
    assert m in q;
    SoundAfter(c, m);
    if m == Add(id, h) {
      QueueCame(d, q[1..]);
      assert Key(Remote, id) in d.htlcs;
    } else {
      AddShows(d, q[1..], id, h);
    }
  }

  lemma {:induction false} RemoveShows(c: Channel, q: seq<Msg>, id: nat, fulfil: bool)
    requires c.Sized() && Sound(c.htlcs) && FitsAll(c, q) && NoCommitment(q) && Revocations(q) <= 1
    requires Remove(id, fulfil) in q
    ensures var x, k := Deliver(c, q).htlcs, Key(Local, id);
            && k in c.htlcs && c.htlcs[k].state == 4
            && k in x && x[k] == c.htlcs[k].(state := 5, fulfilled := fulfil, failed := !fulfil)
    decreases |q|
  {
    hide Sound, StepView, StepHeights;
    var m, d, k := q[0], Recv(c, q[0]), Key(Local, id);
    assert m in q;
    SoundAfter(c, m);
    if m == Remove(id, fulfil) {
      QueueCame(d, q[1..]);
      assert k in d.htlcs;
    } else {
      RemoveShows(d, q[1..], id, fulfil);
      assert k in d.htlcs && d.htlcs[k].state == 4;
      StillFour(c, m, k);
    }
  }

  /** Only what was there and irrevocable is there and irrevocable. */
  lemma StillFour(c: Channel, m: Msg, k: Key)
    requires c.Sized() && Fits(c, m) && (IsHtlcUpdate(m) || m.Revocation?)
    requires k in Recv(c, m).htlcs && Recv(c, m).htlcs[k].state == 4
    ensures k in c.htlcs && c.htlcs[k] == Recv(c, m).htlcs[k]
  {
    hide StepView, StepHeights;
  }

  lemma {:induction false} NewWasAdded(c: Channel, q: seq<Msg>, k: Key)
    requires c.Sized() && Sound(c.htlcs) && FitsAll(c, q) && NoCommitment(q) && Revocations(q) <= 1
    requires k !in c.htlcs && k in Deliver(c, q).htlcs
    ensures Add(k.id, Deliver(c, q).htlcs[k].(state := 0)) in q
    decreases |q|
  {
    hide Sound, StepView, StepHeights;
    var m, d := q[0], Recv(c, q[0]);
    assert m in q;
    SoundAfter(c, m);
    if k in d.htlcs {
      assert m.Add? && k == Key(Remote, m.id);
      QueueCame(d, q[1..]);
    } else {
      NewWasAdded(d, q[1..], k);
    }
  }

  lemma {:induction false} SettledWasRemoved(c: Channel, q: seq<Msg>, k: Key)
    requires c.Sized() && Sound(c.htlcs) && FitsAll(c, q) && NoCommitment(q) && Revocations(q) <= 1
    requires k in c.htlcs && c.htlcs[k].state == 4 && k in Deliver(c, q).htlcs && Deliver(c, q).htlcs[k].state == 5
    ensures Remove(k.id, Deliver(c, q).htlcs[k].fulfilled) in q
    decreases |q|
  {
    hide Sound, StepView, StepHeights;
    var m, d := q[0], Recv(c, q[0]);
    assert m in q;
    SoundAfter(c, m);
    assert k.owner.Local? by { SoundAt(c.htlcs, k); }
    if m.Remove? && m.id == k.id {
      QueueCame(d, q[1..]);
      assert k in d.htlcs;
    } else {
      assert k in d.htlcs && d.htlcs[k] == c.htlcs[k];
      SettledWasRemoved(d, q[1..], k);
    }
  }

  lemma SoundAt(htlcs: map<Key, Htlc>, k: Key)
    requires Sound(htlcs) && k in htlcs
    ensures Owner(htlcs[k].state) == k.owner && !Dead(htlcs[k].state)
  {
  }

  // ---- Sending updates again

  /** The HTLC a message is about, as the receiver names it. */
  function Target(m: Msg): Key
    requires IsHtlcUpdate(m)
  {
    if m.Add? then Key(Remote, m.id) else Key(Local, m.id)
  }

  ghost predicate EachOnce(q: seq<Msg>)
    requires OnlyUpdates(q)
  {
    forall i, j :: 0 <= i < j < |q| ==> IsHtlcUpdate(q[i]) && IsHtlcUpdate(q[j]) && Target(q[i]) != Target(q[j])
  }

  lemma FitsStill(c: Channel, m: Msg, x: Msg)
    requires c.Sized() && IsHtlcUpdate(m) && IsHtlcUpdate(x) && Fits(c, m) && Fits(c, x) && Target(m) != Target(x)
    ensures Fits(Recv(c, m), x)
  {
  }

  lemma {:induction false} UpdatesFit(c: Channel, q: seq<Msg>)
    requires c.Sized() && OnlyUpdates(q) && EachOnce(q) && forall m :: m in q ==> Fits(c, m)
    ensures FitsAll(c, q)
    decreases |q|
  {
    hide Fits, Recv;
    if q != [] {
      var d, rest := Recv(c, q[0]), q[1..];
      assert q[0] in q;
      forall m | m in rest ensures Fits(d, m) && m in q {
        var i :| 0 <= i < |rest| && rest[i] == m;
        assert q[i + 1] == m;
        assert IsHtlcUpdate(q[0]) && IsHtlcUpdate(q[i + 1]) && Target(q[0]) != Target(q[i + 1]);
        FitsStill(c, q[0], m);
      }
      assert forall i, j :: 0 <= i < j < |rest| ==> rest[i] == q[i + 1] && rest[j] == q[j + 1];
      UpdatesFit(d, rest);
    }
  }

  /** The revocation of a queue, if it has one. */
  function RevocationOf(q: seq<Msg>): seq<Msg> {
    if Revocations(q) > 0 then [Revocation] else []
  }

  /**
    The updates in `v` are those that show in the HTLCs `x` as not committed yet; without `adds` the additions are
    left out.
   */
  ghost predicate Covers(v: seq<Msg>, x: map<Key, Htlc>, adds: bool) {
    && OnlyUpdates(v) && EachOnce(v)
    && (forall id, h :: Add(id, h) in v <==>
          var k := Key(Remote, id); adds && k in x && x[k].state == 10 && h == x[k].(state := 0))
    && (forall id, fulfil :: Remove(id, fulfil) in v <==>
          var k := Key(Local, id); k in x && x[k].state == 5 && fulfil == x[k].fulfilled)
  }

  /** What is left of the HTLCs without our own additions, and without the peer's. */
  function Without(x: map<Key, Htlc>, adds: bool): map<Key, Htlc> {
    map k | k in x && x[k].state != 0 && (adds || x[k].state != 10) :: x[k]
  }

  /** Fulfilled or failed from the moment it is being removed, and not before. */
  ghost predicate Fated(htlcs: map<Key, Htlc>) {
    forall k :: k in htlcs ==>
      && (htlcs[k].state == 4 || htlcs[k].state == 10 ==> !htlcs[k].fulfilled && !htlcs[k].failed)
      && (htlcs[k].state == 5 ==> htlcs[k].failed == !htlcs[k].fulfilled)
  }

  /** The HTLCs that a restarted channel has once the lost revocation is in again. */
  ghost predicate Restored(z: map<Key, Htlc>, y: map<Key, Htlc>, revoked: bool) {
    y == if revoked then StepHtlcs(Kept(z), RcvdRevoke) else Kept(z)
  }

  lemma CoveredFits(z: map<Key, Htlc>, x: map<Key, Htlc>, revoked: bool, c: Channel, v: seq<Msg>, adds: bool, m: Msg)
    requires Sound(z) && Fated(z) && Came(z, x, revoked) && Restored(z, c.htlcs, revoked) && Covers(v, x, adds)
             && m in v
    ensures Fits(c, m)
  {
    assert IsHtlcUpdate(m);
    if m.Add? {
      var k := Key(Remote, m.id);
      assert Add(m.id, m.h) in v;
      assert k in x && x[k].state == 10;
    } else {
      var k := Key(Local, m.id);
      assert Remove(m.id, m.fulfil) in v;
      assert k in x && x[k].state == 5;
    }
  }

  lemma RestoredCame(z: map<Key, Htlc>, x: map<Key, Htlc>, revoked: bool, k: Key)
    requires Sound(z) && Came(z, x, revoked)
    ensures var y := if revoked then StepHtlcs(Kept(z), RcvdRevoke) else Kept(z);
            && (k in y ==> k in z && k in x && z[k].state != 0 && z[k].state != 10)
            && (k in y && x[k].state != 5 ==> y[k] == x[k])
            && (k in y && x[k].state == 5 ==>
               y[k].state == 4 && y[k] == x[k].(state := 4, fulfilled := y[k].fulfilled, failed := y[k].failed))
            && (k in x && k !in y ==> x[k].state == 0 || x[k].state == 10)
  {
  }

  lemma {:induction false} NoRevocations(v: seq<Msg>)
    requires OnlyUpdates(v)
    ensures Revocations(v) == 0
  {
    if v != [] {
      assert v[0] in v;
      NoRevocations(v[1..]);
    }
  }

  /** An HTLC that came is under its owner and, if it is being removed, has a fate. */
  lemma CameFated(z: map<Key, Htlc>, x: map<Key, Htlc>, revoked: bool, k: Key)
    requires Sound(z) && Fated(z) && Came(z, x, revoked) && k in x
    ensures Owner(x[k].state) == k.owner && (x[k].state == 5 ==> x[k].failed == !x[k].fulfilled)
    ensures x[k].state == 10 || x[k].state == 4 ==> !x[k].fulfilled && !x[k].failed
  {
  }

  /** One HTLC after the updates have been sent again: as it was, but for those left out. */
  lemma OneReplayed(d: Channel, z: map<Key, Htlc>, x: map<Key, Htlc>, revoked: bool, v: seq<Msg>, adds: bool, k: Key)
    requires d.Sized() && Sound(z) && Fated(z) && Came(z, x, revoked) && Restored(z, d.htlcs, revoked)
    requires Sound(d.htlcs) && FitsAll(d, v) && Covers(v, x, adds)
    ensures var y, w := Deliver(d, v).htlcs, Without(x, adds);
            (k in y <==> k in w) && (k in y ==> y[k] == w[k])
  {
    hide Sound, Fated, Restored, Covers, Fits, FitsAll, Deliver, EachOnce;
    var y := Deliver(d, v).htlcs;
    assert OnlyUpdates(v) by { CoversIs(v, x, adds, k); }
    NoRevocations(v);
    QueueCame(d, v);
    RestoredIs(z, x, revoked, d.htlcs, k);
    CoversIs(v, x, adds, k);
    if k in x { CameFated(z, x, revoked, k); }
    hide Came;
    if k in d.htlcs {
      CameAt(d.htlcs, y, k);
      if x[k].state == 5 {
        RemoveShows(d, v, k.id, x[k].fulfilled);
      } else if y[k] != x[k] {
        SettledWasRemoved(d, v, k);
      }
    } else if k in y {
      NewIs(d.htlcs, y, k);
      NewWasAdded(d, v, k);
    } else if k in x && x[k].state == 10 && adds {
      AddShows(d, v, k.id, x[k].(state := 0));
    }
  }

  lemma CameAt(z: map<Key, Htlc>, x: map<Key, Htlc>, k: Key)
    requires Came(z, x, false) && k in z
    ensures k in x && Became(z[k], x[k], false)
  {
  }

  lemma NewIs(z: map<Key, Htlc>, x: map<Key, Htlc>, k: Key)
    requires Came(z, x, false) && k in x && k !in z
    ensures k.owner.Remote? && x[k].state == 10
  {
  }

  lemma RestoredIs(z: map<Key, Htlc>, x: map<Key, Htlc>, revoked: bool, y: map<Key, Htlc>, k: Key)
    requires Sound(z) && Fated(z) && Came(z, x, revoked) && Restored(z, y, revoked)
    ensures k in y ==> k in x && x[k].state != 0 && x[k].state != 10
    ensures k in y && x[k].state != 5 ==> y[k] == x[k]
    ensures k in y && x[k].state == 5 ==>
              y[k].state == 4 && y[k] == x[k].(state := 4, fulfilled := y[k].fulfilled, failed := y[k].failed)
    ensures k in x && k !in y ==> x[k].state == 0 || x[k].state == 10
  {
    RestoredCame(z, x, revoked, k);
  }

  /** What covering says about one HTLC. */
  lemma CoversIs(v: seq<Msg>, x: map<Key, Htlc>, adds: bool, k: Key)
    requires Covers(v, x, adds)
    ensures OnlyUpdates(v)
    ensures k in x && x[k].state == 5 && k.owner.Local? ==> Remove(k.id, x[k].fulfilled) in v
    ensures k in x && x[k].state == 10 && k.owner.Remote? && adds ==> Add(k.id, x[k].(state := 0)) in v
    ensures k.owner.Remote? ==> forall h :: Add(k.id, h) in v ==>
            adds && k in x && x[k].state == 10 && h == x[k].(state := 0)
    ensures k.owner.Local? ==> forall f :: Remove(k.id, f) in v ==> k in x && x[k].state == 5 && f == x[k].fulfilled
  {
    assert k == Key(k.owner, k.id);
  }

  lemma RestoredIsSound(z: map<Key, Htlc>, y: map<Key, Htlc>, revoked: bool)
    requires Sound(z) && Restored(z, y, revoked)
    ensures Sound(y)
  {
  }

  /**
    A channel that has forgotten the updates it got, and those it sent, gets a lost revocation and the updates again:
    it fits them, and has what it had, but for its own additions and those left out.
   */
  lemma Replay(z: Channel, c: Channel, q: seq<Msg>, v: seq<Msg>, adds: bool)
    requires z.Sized() && c.Sized() && Sound(z.htlcs) && Fated(z.htlcs) && c.htlcs == Kept(z.htlcs)
    requires FitsAll(z, q) && NoCommitment(q) && Revocations(q) <= 1 && Covers(v, Deliver(z, q).htlcs, adds)
    ensures FitsAll(c, RevocationOf(q) + v)
    ensures Deliver(c, RevocationOf(q) + v).htlcs == Without(Deliver(z, q).htlcs, adds)
  {
    hide Covers, Came, Sound, Fated, Restored, Kept, FitsAll, Deliver, Recv, Fits, EachOnce, OnlyUpdates, RevocationOf;
    hide Without;
    var x, revoked := Deliver(z, q).htlcs, Revocations(q) == 1;
    QueueCame(z, q);
    var d := if revoked then Recv(c, Revocation) else c;
    RestoredStarts(z.htlcs, c, revoked);
    CoversUpdates(v, x, adds);
    ReplayStarts(c, q, v, d);
    RestoredIsSound(z.htlcs, d.htlcs, revoked);
    forall m | m in v ensures Fits(d, m) {
      CoveredFits(z.htlcs, x, revoked, d, v, adds, m);
    }
    UpdatesFit(d, v);
    var y, w := Deliver(d, v).htlcs, Without(x, adds);
    forall k ensures (k in y <==> k in w) && (k in y ==> y[k] == w[k]) {
      OneReplayed(d, z.htlcs, x, revoked, v, adds, k);
    }
    assert y == w;
  }

  lemma RestoredStarts(z: map<Key, Htlc>, c: Channel, revoked: bool)
    requires c.Sized() && c.htlcs == Kept(z)
    ensures Restored(z, if revoked then Recv(c, Revocation).htlcs else c.htlcs, revoked)
  {
    hide Kept, StepHtlcs, StepView, StepHeights;
  }

  lemma CoversUpdates(v: seq<Msg>, x: map<Key, Htlc>, adds: bool)
    requires Covers(v, x, adds)
    ensures OnlyUpdates(v) && EachOnce(v)
  {
  }

  lemma ReplayStarts(c: Channel, q: seq<Msg>, v: seq<Msg>, d: Channel)
    requires c.Sized() && Revocations(q) <= 1 && d == if Revocations(q) == 1 then Recv(c, Revocation) else c
    ensures d.Sized() && Deliver(c, RevocationOf(q) + v) == Deliver(d, v)
    ensures FitsAll(d, v) ==> FitsAll(c, RevocationOf(q) + v)
  {
    hide Recv;
    if Revocations(q) == 1 {
      assert ([Revocation] + v)[1..] == v;
    } else {
      assert [] + v == v;
    }
  }
}
