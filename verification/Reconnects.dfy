/**
  A disconnection: everything on the wire is lost, both ends start again from what was saved, and each sends again what
  the other never got.
 */
module Reconnects {
  import opened Sides
  import opened HtlcStates
  import opened Sums
  import opened ChannelState
  import opened Ledger
  import opened Admission
  import opened Runs
  import opened Solvency
  import opened Messages
  import opened Mirrors
  import opened Links
  import opened Reestablish
  import opened Persistence
  import opened Restoring
  import opened Replays

  /** The channel after a restart: updates that no commitment has are gone, but for our own removals. */
  function Restarted(c: Channel, swap: Option<Swap>): Channel {
    c.(htlcs := Kept(c.htlcs), swaps := Pair(swap, c.swaps.remote))
  }

  /** The updates of a lost commitment, in whatever order: the HTLCs it added and those it removed. */
  ghost predicate Resends(d: Channel, u: seq<Msg>) {
    && OnlyUpdates(u) && EachOnce(u)
    && (forall id, h :: Add(id, h) in u <==>
          var k := Key(Local, id);
          k in d.htlcs && d.htlcs[k].state == SENT_ADD_COMMIT && h == d.htlcs[k].(state := SENT_ADD_HTLC))
    && (forall id, fulfil :: Remove(id, fulfil) in u <==>
          var k := Key(Remote, id);
          k in d.htlcs && d.htlcs[k].state == SENT_REMOVE_COMMIT && fulfil == d.htlcs[k].fulfilled)
  }

  /** Our removals that no commitment has. */
  ghost predicate ResendsRemovals(d: Channel, w: seq<Msg>) {
    && OnlyUpdates(w) && EachOnce(w)
    && (forall id, h :: Add(id, h) !in w)
    && (forall id, fulfil :: Remove(id, fulfil) in w <==>
          var k := Key(Remote, id);
          k in d.htlcs && d.htlcs[k].state == SENT_REMOVE_HTLC && fulfil == d.htlcs[k].fulfilled)
  }

  /** Commitments, each with its updates, and revocations, in the order of `ks`. */
  function Again(ks: seq<Kind>, batch: seq<Msg>): seq<Msg> {
    if ks == [] then [] else (if ks[0].CommitSig? then batch else [Revocation]) + Again(ks[1..], batch)
  }

  lemma {:induction false} AgainAppend(a: seq<Kind>, b: seq<Kind>, batch: seq<Msg>)
    ensures Again(a + b, batch) == Again(a, batch) + Again(b, batch)
  {
    if a == [] {
      assert a + b == b;
    } else {
      assert (a + b)[1..] == a[1..] + b;
      AgainAppend(a[1..], b, batch);
    }
  }

  // ---- A queue around its commitment

  lemma {:induction false} CountIsRevocations(q: seq<Msg>)
    ensures Count(q, RevokeAck) == Revocations(q)
  {
    if q != [] {
      CountIsRevocations(q[1..]);
      assert multiset(Kinds(q)) == multiset(KindOf(q[0])) + multiset(Kinds(q[1..]));
    }
  }

  ghost predicate NoHeights(q: seq<Msg>) {
    forall m :: m in q ==> !m.Height?
  }

  /** The part of a queue without a commitment, sent again, is its revocation. */
  lemma {:induction false} AgainIsRevocation(q: seq<Msg>, batch: seq<Msg>)
    requires NoCommitment(q) && Revocations(q) <= 1
    ensures Again(Kinds(q), batch) == RevocationOf(q)
  {
    if q != [] {
      assert q[0] in q;
      AgainIsRevocation(q[1..], batch);
      if q[0].Revocation? {
        assert Kinds(q) == [RevokeAck] + Kinds(q[1..]);
        assert Kinds(q)[1..] == Kinds(q[1..]);
        assert [Revocation] + [] == [Revocation];
      } else {
        assert Kinds(q) == Kinds(q[1..]);
      }
    }
  }

  lemma CountFirst(q: seq<Msg>, kind: Kind)
    requires q != []
    ensures Count(q, kind) == (if KindOf(q[0]) == [kind] then 1 else 0) + Count(q[1..], kind)
  {
    assert multiset(Kinds(q)) == multiset(KindOf(q[0])) + multiset(Kinds(q[1..]));
  }

  /** Where the commitment is, if there is one. */
  lemma {:induction false} CommitmentAt(q: seq<Msg>) returns (j: nat)
    requires Count(q, CommitSig) == 1
    ensures j < |q| && q[j].Commitment? && Count(q[..j], CommitSig) == 0 && Count(q[j + 1..], CommitSig) == 0
  {
    assert q != [];
    CountFirst(q, CommitSig);
    if q[0].Commitment? {
      j := 0;
      assert q[..0] == [];
    } else {
      hide Count;
      var i := CommitmentAt(q[1..]);
      j := i + 1;
      assert q[j + 1..] == q[1..][i + 1..] && q[..j][1..] == q[1..][..i] && q[..j][0] == q[0];
      CountFirst(q[..j], CommitSig);
    }
  }

  lemma NoneIsNoCommitment(q: seq<Msg>)
    requires NoHeights(q) && Count(q, CommitSig) == 0
    ensures NoCommitment(q)
  {
    hide Count;
    forall m | m in q ensures IsHtlcUpdate(m) || m.Revocation? {
      NoneCounted(q, CommitSig, m);
    }
  }

  lemma {:induction false} DeliverAppend(c: Channel, q: seq<Msg>, r: seq<Msg>)
    requires c.Sized()
    ensures Deliver(c, q + r) == Deliver(Deliver(c, q), r)
    ensures FitsAll(c, q + r) <==> FitsAll(c, q) && FitsAll(Deliver(c, q), r)
    decreases |q|
  {
    hide Recv, Fits;
    if q == [] {
      assert q + r == r;
    } else {
      assert (q + r)[1..] == q[1..] + r;
      DeliverAppend(Recv(c, q[0]), q[1..], r);
    }
  }

  // ---- What the queue to an end does not touch

  /** States in which an HTLC waits for something else than what this message is. */
  predicate Waits(s: HtlcState, m: Msg) {
    s == SENT_REMOVE_HTLC || ((s == SENT_ADD_COMMIT || s == SENT_REMOVE_COMMIT) && !m.Revocation?)
  }

  lemma RecvKeepsWaiting(d: Channel, m: Msg, s: HtlcState, k: Key)
    requires d.Sized() && Fits(d, m) && Waits(s, m)
    ensures var x := Recv(d, m).htlcs;
            && (k in x && x[k].state == s <==> k in d.htlcs && d.htlcs[k].state == s)
            && (k in x && x[k].state == s ==> x[k] == d.htlcs[k])
  {
    hide StepView, StepHeights;
  }

  lemma {:induction false} DeliverKeepsWaiting(d: Channel, q: seq<Msg>, s: HtlcState, k: Key)
    requires d.Sized() && FitsAll(d, q) && forall m :: m in q ==> Waits(s, m)
    ensures var x := Deliver(d, q).htlcs;
            && (k in x && x[k].state == s <==> k in d.htlcs && d.htlcs[k].state == s)
            && (k in x && x[k].state == s ==> x[k] == d.htlcs[k])
    decreases |q|
  {
    hide Recv, Fits;
    if q != [] {
      assert q[0] in q;
      RecvKeepsWaiting(d, q[0], s, k);
      DeliverKeepsWaiting(Recv(d, q[0]), q[1..], s, k);
    }
  }

  // ---- Two channels, one of which has forgotten

  /** `y` is `x` without our own additions and without the peer's unless `adds`; our own swap may be gone too. */
  ghost predicate Trimmed(x: Channel, y: Channel, adds: bool) {
    && y == x.(htlcs := Without(x.htlcs, adds), swaps := y.swaps)
    && y.swaps.remote == x.swaps.remote && SavedSwap(x.swaps.local, y.swaps.local)
  }

  /** `c` is `z` after a restart. */
  ghost predicate Forgot(z: Channel, c: Channel) {
    && c == z.(htlcs := Kept(z.htlcs), swaps := c.swaps)
    && c.swaps.remote == z.swaps.remote && SavedSwap(z.swaps.local, c.swaps.local)
  }

  lemma SavedReleased(live: Option<Swap>, saved: Option<Swap>)
    requires SavedSwap(live, saved)
    ensures SavedSwap(Forgotten(StepSwap(live, RcvdRevoke)), Forgotten(StepSwap(saved, RcvdRevoke)))
  {
  }

  lemma ReplayedRevocations(q: seq<Msg>, v: seq<Msg>)
    requires Revocations(q) <= 1 && OnlyUpdates(v)
    ensures Revocations(RevocationOf(q) + v) == Revocations(q) && NoCommitment(RevocationOf(q) + v)
  {
    NoRevocations(v);
    if Revocations(q) == 1 {
      assert ([Revocation] + v)[1..] == v;
    } else {
      assert [] + v == v;
    }
  }

  /** What is sent again brings a restarted channel to where the live one was. */
  lemma StageReplays(z: Channel, c: Channel, q: seq<Msg>, v: seq<Msg>, adds: bool)
    requires z.Sized() && c.Sized() && Forgot(z, c) && Sound(z.htlcs) && Fated(z.htlcs) && SteadyHeights(z.heights)
    requires FitsAll(z, q) && NoCommitment(q) && Revocations(q) <= 1 && Covers(v, Deliver(z, q).htlcs, adds)
    ensures FitsAll(c, RevocationOf(q) + v) && Trimmed(Deliver(z, q), Deliver(c, RevocationOf(q) + v), adds)
  {
    hide Kept, Without, Covers, Sound, Fated, FitsAll, Deliver, NoCommitment, RevocationOf, SteadyHeights, SavedSwap;
    CoversUpdates(v, Deliver(z, q).htlcs, adds);
    Replay(z, c, q, v, adds);
    ReplayedRevocations(q, v);
    QueueLeaves(z, q);
    QueueLeaves(c, RevocationOf(q) + v);
    SavedReleased(z.swaps.local, c.swaps.local);
  }

  lemma TrimmedCommits(x: map<Key, Htlc>)
    requires Sound(x)
    ensures Kept(StepHtlcs(x, RcvdCommit)) == StepHtlcs(Without(x, true), RcvdCommit)
    ensures Sound(StepHtlcs(x, RcvdCommit)) && (Fated(x) ==> Fated(StepHtlcs(x, RcvdCommit)))
  {
    var z, y := StepHtlcs(x, RcvdCommit), Without(x, true);
    forall k | k in z ensures z[k].state != 5 && z[k].state != 10 {
    }
    assert Kept(z).Keys == StepHtlcs(y, RcvdCommit).Keys;
  }

  lemma TrimmedOwed(x: Channel, y: Channel, lane: nat, p: Side)
    requires x.Sized() && y.Sized() && Trimmed(x, y, true) && lane < x.Lanes()
    ensures StepOwed(y, RcvdCommit, lane, p) == StepOwed(x, RcvdCommit, lane, p)
  {
    hide Sum, AdvanceEffect, SwapEffect;
    assert StepTable(y.htlcs, RcvdCommit, lane, p) == StepTable(x.htlcs, RcvdCommit, lane, p);
  }

  lemma TrimmedTakes(x: Channel, y: Channel, swap: Option<Swap>)
    requires Trimmed(x, y, true)
    ensures Trimmed(TakeSwap(x, swap), TakeSwap(y, swap), true)
  {
    hide Without;
  }

  /** A commitment finds the same in both; after it nothing waits that a restart would forget, but our own additions. */
  lemma CommitTrims(x: Channel, y: Channel, m: Msg)
    requires x.Sized() && y.Sized() && Trimmed(x, y, true) && m.Commitment? && Fits(x, m)
    requires Sound(x.htlcs) && Fated(x.htlcs) && SteadyHeights(x.heights)
    ensures Fits(y, m) && Forgot(Recv(x, m), Recv(y, m))
    ensures Sound(Recv(x, m).htlcs) && Fated(Recv(x, m).htlcs) && SteadyHeights(Recv(x, m).heights)
  {
    var a, b := TakeSwap(x, m.swap), TakeSwap(y, m.swap);
    TrimmedTakes(x, y, m.swap);
    TrimmedCommits(x.htlcs);
    SteadyStays(x.heights, RcvdCommit);
    hide Without, Kept, StepHtlcs, StepHeights, Sound, Fated;
    forall lane: nat, p: Side | lane < a.Lanes()
      ensures StepOwed(b, RcvdCommit, lane, p) == StepOwed(a, RcvdCommit, lane, p)
    {
      TrimmedOwed(a, b, lane, p);
    }
    hide StepOwed;
    SameOwedSameView(a, b, RcvdCommit);
  }

  lemma {:induction false} SoundThrough(c: Channel, q: seq<Msg>)
    requires c.Sized() && Sound(c.htlcs) && FitsAll(c, q) && NoCommitment(q)
    ensures Sound(Deliver(c, q).htlcs)
    decreases |q|
  {
    hide Sound, Recv, Fits;
    if q != [] {
      assert q[0] in q;
      SoundAfter(c, q[0]);
      SoundThrough(Recv(c, q[0]), q[1..]);
    }
  }

  lemma FatedThrough(z: map<Key, Htlc>, x: map<Key, Htlc>, revoked: bool)
    requires Sound(z) && Fated(z) && Came(z, x, revoked)
    ensures Fated(x)
  {
    forall k | k in x
      ensures && (x[k].state == 4 || x[k].state == 10 ==> !x[k].fulfilled && !x[k].failed)
              && (x[k].state == 5 ==> x[k].failed == !x[k].fulfilled)
    {
      hide Sound, Fated, Came;
      CameFated(z, x, revoked, k);
    }
  }

  // ---- What is sent again is what was lost

  /** No commitment received waits for our revocation. */
  ghost predicate Answered(htlcs: map<Key, Htlc>) {
    forall k :: k in htlcs ==> htlcs[k].state != RCVD_ADD_COMMIT && htlcs[k].state != RCVD_REMOVE_COMMIT
  }

  lemma AnsweredThrough(z: map<Key, Htlc>, x: map<Key, Htlc>, revoked: bool)
    requires Answered(z) && Came(z, x, revoked)
    ensures Answered(x)
  {
  }

  /** What a commitment takes in shows, whatever comes after it. */
  lemma CommitShows(y: map<Key, Htlc>, x: map<Key, Htlc>, revoked: bool, k: Key)
    requires Sound(y) && Answered(y) && Came(StepHtlcs(y, RcvdCommit), x, revoked)
    ensures k in y && y[k].state == 10 <==> k in x && x[k].state == 11
    ensures k in y && y[k].state == 10 ==> x[k] == y[k].(state := 11)
    ensures k in y && y[k].state == 5 <==> k in x && x[k].state == 6
    ensures k in y && y[k].state == 5 ==> x[k] == y[k].(state := 6)
  {
  }

  lemma MirrorAt(x: map<Key, Htlc>, d: map<Key, Htlc>, k: Key, s: HtlcState)
    requires MirrorHtlcs(x, d)
    ensures k in x && x[k].state == s <==> FlipKey(k) in d && d[FlipKey(k)].state == Mirror(s)
    ensures k in x ==> FlipKey(k) in d && d[FlipKey(k)] == FlipHtlc(x[k])
  {
    assert FlipKey(FlipKey(k)) == k;
    if FlipKey(k) in d {
      assert FlipKey(FlipKey(k)) in x;
    }
  }

  /** The updates sent again with a lost commitment are those it has when it comes. */
  lemma ResendsCover(d: Channel, u: seq<Msg>, y: map<Key, Htlc>)
    requires Resends(d, u)
    requires forall id: nat :: var k, j := Key(Remote, id), Key(Local, id);
               && (k in y && y[k].state == 10 <==> j in d.htlcs && d.htlcs[j].state == 1)
               && (k in y && y[k].state == 10 ==> d.htlcs[j] == y[k].(state := 1))
    requires forall id: nat :: var k, j := Key(Local, id), Key(Remote, id);
               && (k in y && y[k].state == 5 <==> j in d.htlcs && d.htlcs[j].state == 16)
               && (k in y && y[k].state == 5 ==> d.htlcs[j] == y[k].(state := 16))
    ensures Covers(u, y, true)
  {
    forall id, h
      ensures Add(id, h) in u <==> var k := Key(Remote, id); k in y && y[k].state == 10 && h == y[k].(state := 0)
    {
      var k, j := Key(Remote, id), Key(Local, id);
    }
    forall id, fulfil
      ensures Remove(id, fulfil) in u <==>
              var k := Key(Local, id); k in y && y[k].state == 5 && fulfil == y[k].fulfilled
    {
      var k, j := Key(Local, id), Key(Remote, id);
    }
  }

  lemma RemovalsCover(d: Channel, w: seq<Msg>, x: map<Key, Htlc>)
    requires ResendsRemovals(d, w)
    requires forall id: nat :: var k, j := Key(Local, id), Key(Remote, id);
               && (k in x && x[k].state == 5 <==> j in d.htlcs && d.htlcs[j].state == 15)
               && (k in x && x[k].state == 5 ==> d.htlcs[j] == x[k].(state := 15))
    ensures Covers(w, x, false)
  {
    forall id, fulfil
      ensures Remove(id, fulfil) in w <==>
              var k := Key(Local, id); k in x && x[k].state == 5 && fulfil == x[k].fulfilled
    {
      var k, j := Key(Local, id), Key(Remote, id);
    }
  }

  lemma LostUpdatesCovered(y: map<Key, Htlc>, x: map<Key, Htlc>, revoked: bool, d: Channel, out: seq<Msg>, u: seq<Msg>)
    requires Sound(y) && Answered(y) && Came(StepHtlcs(y, RcvdCommit), x, revoked)
    requires d.Sized() && FitsAll(d, out) && MirrorHtlcs(x, Deliver(d, out).htlcs) && Count(out, RevokeAck) == 0
    requires Resends(d, u)
    ensures Covers(u, y, true)
  {
    hide Sound, Answered, Came, MirrorHtlcs, FitsAll, Deliver, Resends, Covers, Count, StepHtlcs;
    forall m | m in out ensures Waits(SENT_ADD_COMMIT, m) && Waits(SENT_REMOVE_COMMIT, m) {
      NoneCounted(out, RevokeAck, m);
    }
    forall id: nat
      ensures var k, j := Key(Remote, id), Key(Local, id);
              && (k in y && y[k].state == 10 <==> j in d.htlcs && d.htlcs[j].state == 1)
              && (k in y && y[k].state == 10 ==> d.htlcs[j] == y[k].(state := 1))
    {
      var k := Key(Remote, id);
      CommitShows(y, x, revoked, k);
      MirrorAt(x, Deliver(d, out).htlcs, k, 11);
      DeliverKeepsWaiting(d, out, SENT_ADD_COMMIT, FlipKey(k));
    }
    forall id: nat
      ensures var k, j := Key(Local, id), Key(Remote, id);
              && (k in y && y[k].state == 5 <==> j in d.htlcs && d.htlcs[j].state == 16)
              && (k in y && y[k].state == 5 ==> d.htlcs[j] == y[k].(state := 16))
    {
      var k := Key(Local, id);
      CommitShows(y, x, revoked, k);
      MirrorAt(x, Deliver(d, out).htlcs, k, 6);
      DeliverKeepsWaiting(d, out, SENT_REMOVE_COMMIT, FlipKey(k));
    }
    ResendsCover(d, u, y);
  }

  lemma LostRemovalsCovered(x: map<Key, Htlc>, d: Channel, out: seq<Msg>, w: seq<Msg>)
    requires d.Sized() && FitsAll(d, out) && MirrorHtlcs(x, Deliver(d, out).htlcs) && ResendsRemovals(d, w)
    ensures Covers(w, x, false)
  {
    hide MirrorHtlcs, FitsAll, Deliver, ResendsRemovals, Covers;
    forall id: nat
      ensures var k, j := Key(Local, id), Key(Remote, id);
              && (k in x && x[k].state == 5 <==> j in d.htlcs && d.htlcs[j].state == 15)
              && (k in x && x[k].state == 5 ==> d.htlcs[j] == x[k].(state := 15))
    {
      var k := Key(Local, id);
      MirrorAt(x, Deliver(d, out).htlcs, k, 5);
      DeliverKeepsWaiting(d, out, SENT_REMOVE_HTLC, FlipKey(k));
    }
    RemovalsCover(d, w, x);
  }

  /**
    An end that is up to date: no commitment unanswered, HTLCs under their owners with their fates, heights at rest.
   */
  ghost predicate UpToDate(c: Channel) {
    c.Sized() && Sound(c.htlcs) && Fated(c.htlcs) && Answered(c.htlcs) && SteadyHeights(c.heights)
  }

  /** With no commitment on its way, the revocation and the removals are sent again. */
  lemma RedeliversRevocation(c: Channel, c': Channel, d: Channel, into: seq<Msg>, out: seq<Msg>, w: seq<Msg>,
      batch: seq<Msg>)
    requires UpToDate(c) && d.Sized() && c'.Sized() && Forgot(c, c')
    requires FitsAll(c, into) && FitsAll(d, out) && NoCommitment(into) && Revocations(into) <= 1
    requires MirrorHtlcs(Deliver(c, into).htlcs, Deliver(d, out).htlcs) && ResendsRemovals(d, w)
    ensures var again := Again(Kinds(into), batch) + w;
            FitsAll(c', again) && Trimmed(Deliver(c, into), Deliver(c', again), false)
  {
    hide Forgot, FitsAll, Deliver, MirrorHtlcs, ResendsRemovals, Trimmed, Again, NoCommitment, Sound, Fated, Answered,
         SteadyHeights;
    LostRemovalsCovered(Deliver(c, into).htlcs, d, out, w);
    AgainIsRevocation(into, batch);
    StageReplays(c, c', into, w, false);
  }

  /** The three stages with a commitment on its way: what came before it, the commitment itself, and what came after. */
  lemma RedeliversCommitment(c: Channel, c': Channel, d: Channel, pre: seq<Msg>, m: Msg, post: seq<Msg>, out: seq<Msg>,
      u: seq<Msg>, w: seq<Msg>)
    requires UpToDate(c) && d.Sized() && c'.Sized() && Forgot(c, c') && m.Commitment?
    requires FitsAll(c, pre) && FitsAll(d, out) && NoCommitment(pre) && NoCommitment(post)
    requires Revocations(pre) <= 1 && Revocations(post) <= 1 && Count(out, RevokeAck) == 0
    requires Fits(Deliver(c, pre), m) && FitsAll(Recv(Deliver(c, pre), m), post)
    requires MirrorHtlcs(Deliver(Recv(Deliver(c, pre), m), post).htlcs, Deliver(d, out).htlcs)
    requires Resends(d, u) && ResendsRemovals(d, w)
    ensures FitsAll(c', RevocationOf(pre) + u)
    ensures var y := Deliver(c', RevocationOf(pre) + u);
            && Fits(y, m) && FitsAll(Recv(y, m), RevocationOf(post) + w)
            && Trimmed(Deliver(Recv(Deliver(c, pre), m), post), Deliver(Recv(y, m), RevocationOf(post) + w), false)
  {
    hide Forgot, FitsAll, Deliver, MirrorHtlcs, Resends, ResendsRemovals, Trimmed, NoCommitment, RevocationOf, Count;
    hide Sound, Fated, Answered, SteadyHeights, Recv, Fits, Came, StepHtlcs, Covers;
    var x := Deliver(c, pre);
    var z := Recv(x, m);
    QueueCame(c, pre);
    SoundThrough(c, pre);
    FatedThrough(c.htlcs, x.htlcs, Revocations(pre) == 1);
    AnsweredThrough(c.htlcs, x.htlcs, Revocations(pre) == 1);
    assert x == c.(htlcs := x.htlcs, swaps := x.swaps) by { QueueLeaves(c, pre); }
    CommitHtlcs(x, m);
    assert Sound(z.htlcs) by { CommitIsSound(x.htlcs); }
    QueueCame(z, post);
    LostUpdatesCovered(x.htlcs, Deliver(z, post).htlcs, Revocations(post) == 1, d, out, u);
    StageReplays(c, c', pre, u, true);
    var y := Deliver(c', RevocationOf(pre) + u);
    CommitTrims(x, y, m);
    LostRemovalsCovered(Deliver(z, post).htlcs, d, out, w);
    StageReplays(z, Recv(y, m), post, w, false);
  }

  lemma CommitHtlcs(x: Channel, m: Msg)
    requires x.Sized() && m.Commitment?
    ensures Recv(x, m).htlcs == StepHtlcs(x.htlcs, RcvdCommit)
  {
    hide StepHtlcs, StepView, StepHeights;
  }

  lemma CommitIsSound(x: map<Key, Htlc>)
    requires Sound(x)
    ensures Sound(StepHtlcs(x, RcvdCommit))
  {
  }

  lemma {:induction false} RevocationsSplit(a: seq<Msg>, b: seq<Msg>)
    ensures Revocations(a + b) == Revocations(a) + Revocations(b)
  {
    if a == [] {
      assert a + b == b;
    } else {
      assert (a + b)[1..] == a[1..] + b;
      RevocationsSplit(a[1..], b);
    }
  }

  lemma AgainAround(pre: seq<Msg>, m: Msg, post: seq<Msg>, u: seq<Msg>, w: seq<Msg>)
    requires m.Commitment? && NoCommitment(pre) && NoCommitment(post) && Revocations(pre) <= 1 && Revocations(post) <= 1
    ensures Again(Kinds(pre + ([m] + post)), u + [m]) + w ==
            (RevocationOf(pre) + u) + ([m] + (RevocationOf(post) + w))
  {
    hide Kinds, Again, NoCommitment, RevocationOf;
    var batch := u + [m];
    KindsAppend(pre, [m] + post);
    KindsAppend([m], post);
    AgainOne(m, batch);
    AgainAppend(Kinds(pre), [CommitSig] + Kinds(post), batch);
    AgainAppend([CommitSig], Kinds(post), batch);
    AgainIsRevocation(pre, batch);
    AgainIsRevocation(post, batch);
    Regroups(RevocationOf(pre), u, m, RevocationOf(post), w);
  }

  lemma AgainOne(m: Msg, batch: seq<Msg>)
    requires m.Commitment?
    ensures Kinds([m]) == [CommitSig] && Again([CommitSig], batch) == batch
  {
    assert Again([], batch) == [];
  }

  lemma Regroups(a: seq<Msg>, u: seq<Msg>, m: Msg, b: seq<Msg>, w: seq<Msg>)
    ensures a + (u + [m] + b) + w == (a + u) + ([m] + (b + w))
  {
  }

  /** The message a lost commitment is sent again as. */
  function CommitmentOf(d: Channel): Msg {
    Commitment(SwapTold(d), ContentOf(d, Remote))
  }

  /** Whatever was on its way to `c`: what `d` sends again brings the restarted channel to where `c` would have been. */
  lemma Redelivers(c: Channel, c': Channel, d: Channel, into: seq<Msg>, out: seq<Msg>, u: seq<Msg>, w: seq<Msg>)
    requires UpToDate(c) && d.Sized() && c'.Sized() && Forgot(c, c')
    requires FitsAll(c, into) && FitsAll(d, out) && NoHeights(into) && Signed(d, into)
    requires Count(into, CommitSig) <= 1 && Count(into, RevokeAck) <= 1
    requires Count(into, CommitSig) == 1 ==> Count(out, RevokeAck) == 0
    requires MirrorHtlcs(Deliver(c, into).htlcs, Deliver(d, out).htlcs)
    requires Resends(d, u) && ResendsRemovals(d, w)
    ensures var again := Again(Kinds(into), u + [CommitmentOf(d)]) + w;
            FitsAll(c', again) && Trimmed(Deliver(c, into), Deliver(c', again), false)
  {
    hide UpToDate, Forgot, MirrorHtlcs, Resends, ResendsRemovals, Trimmed, Count, ContentOf, SwapTold;
    CountIsRevocations(into);
    if Count(into, CommitSig) == 0 {
      hide FitsAll, Deliver, Again;
      NoneIsNoCommitment(into);
      UpToDateIsSized(c);
      RedeliversRevocation(c, c', d, into, out, w, u + [CommitmentOf(d)]);
    } else {
      var j := CommitmentAt(into);
      var pre, m, post := into[..j], into[j], into[j + 1..];
      assert into == pre + ([m] + post);
      assert m == CommitmentOf(d) by { assert m in into; }
      hide Signed, Deliver, FitsAll, Again;
      RevocationsSplit(pre, [m] + post);
      RevocationsSplit([m], post);
      assert NoHeights(pre) && NoHeights(post);
      NoneIsNoCommitment(pre);
      NoneIsNoCommitment(post);
      UpToDateIsSized(c);
      RedeliversAround(c, c', d, pre, m, post, out, u, w);
    }
  }

  lemma DeliverAround(c: Channel, pre: seq<Msg>, m: Msg, post: seq<Msg>)
    requires c.Sized()
    ensures Deliver(c, pre + ([m] + post)) == Deliver(Recv(Deliver(c, pre), m), post)
    ensures FitsAll(c, pre + ([m] + post)) <==>
            FitsAll(c, pre) && Fits(Deliver(c, pre), m) && FitsAll(Recv(Deliver(c, pre), m), post)
  {
    DeliverAppend(c, pre, [m] + post);
    hide Fits, Recv;
    assert ([m] + post)[1..] == post;
  }

  lemma RedeliversAround(c: Channel, c': Channel, d: Channel, pre: seq<Msg>, m: Msg, post: seq<Msg>, out: seq<Msg>,
      u: seq<Msg>, w: seq<Msg>)
    requires UpToDate(c) && c.Sized() && d.Sized() && c'.Sized() && Forgot(c, c') && m.Commitment?
    requires FitsAll(c, pre + ([m] + post)) && FitsAll(d, out) && NoCommitment(pre) && NoCommitment(post)
    requires Revocations(pre) <= 1 && Revocations(post) <= 1 && Count(out, RevokeAck) == 0
    requires MirrorHtlcs(Deliver(c, pre + ([m] + post)).htlcs, Deliver(d, out).htlcs)
    requires Resends(d, u) && ResendsRemovals(d, w)
    ensures var again := Again(Kinds(pre + ([m] + post)), u + [m]) + w;
            FitsAll(c', again) && Trimmed(Deliver(c, pre + ([m] + post)), Deliver(c', again), false)
  {
    hide UpToDate, Forgot, MirrorHtlcs, Resends, ResendsRemovals, Trimmed, Count, FitsAll, Deliver, Again, NoCommitment;
    hide RevocationOf, Fits, Recv;
    DeliverAround(c, pre, m, post);
    RedeliversCommitment(c, c', d, pre, m, post, out, u, w);
    AgainAround(pre, m, post, u, w);
    DeliverAround(c', RevocationOf(pre) + u, m, RevocationOf(post) + w);
  }

  lemma UpToDateIsSized(c: Channel)
    requires UpToDate(c)
    ensures c.Sized()
  {
  }

  /** Two ends that mirror each other still do when both have forgotten. */
  lemma TrimmedMirrors(x: Channel, y: Channel, x': Channel, y': Channel)
    requires IsMirror(x, y) && Trimmed(x, x', false) && Trimmed(y, y', false)
    ensures IsMirror(x', y')
  {
    WithoutMirrors(x.htlcs, y.htlcs);
    FlippedViewsMirror(x, x', y);
    SameViewsMirror(x', y, y');
    hide MirrorHtlcs, Without, MirrorHeights, MirrorViews;
  }

  lemma WithoutMirrors(a: map<Key, Htlc>, b: map<Key, Htlc>)
    requires MirrorHtlcs(a, b)
    ensures MirrorHtlcs(Without(a, false), Without(b, false))
  {
    var x, y := Without(a, false), Without(b, false);
    forall k | k in x ensures FlipKey(k) in y && y[FlipKey(k)] == FlipHtlc(x[k]) {
      assert FlipKey(k) in b;
    }
    forall j | j in y ensures FlipKey(j) in x {
      assert FlipKey(FlipKey(j)) == j && FlipKey(j) in a;
      assert b[FlipKey(FlipKey(j))] == FlipHtlc(a[FlipKey(j)]);
    }
  }

  // ---- A restart keeps what holds of one end

  lemma RestartExplained(c: Channel, base: Balances, swap: Option<Swap>)
    requires c.WellFormed() && Explained(c, base) && SavedSwap(c.swaps.local, swap)
    ensures Restarted(c, swap).WellFormed() && Explained(Restarted(c, swap), base)
  {
    var d := Restarted(c, swap);
    RestartWellFormed(c, swap);
    forall v: Side, lane: nat, p: Side | lane < c.Lanes() ensures d.Owed(v, lane, p) == Accounted(d, base, v, lane, p) {
      hide Sum, AdjustTable, SwapAdjust, Kept;
      KeptTable(c.htlcs, v, lane, p);
      SavedSwapAdjust(c.swaps.local, swap, v, lane, p);
      assert c.Owed(v, lane, p) == Accounted(c, base, v, lane, p);
    }
  }

  lemma RestartWellFormed(c: Channel, swap: Option<Swap>)
    requires c.WellFormed() && SavedSwap(c.swaps.local, swap)
    ensures Restarted(c, swap).WellFormed()
  {
  }

  /** After a restart nothing that is pending takes from the one who offered it. */
  lemma NothingTaken(htlcs: map<Key, Htlc>, v: Side, lane: nat)
    requires forall k :: k in htlcs ==> Owner(htlcs[k].state) == k.owner
    ensures 0 <= Sum(StepTable(Kept(htlcs), CommitStep(v), lane, v.Other()))
  {
    hide Sum;
    SumNonNegative(StepTable(Kept(htlcs), CommitStep(v), lane, v.Other()));
  }

  lemma SavedPromises(live: Option<Swap>, saved: Option<Swap>, v: Side, lane: nat, p: Side)
    requires SavedSwap(live, saved)
    ensures PromisedBy(saved, v, lane, p) <= PromisedBy(live, v, lane, p)
  {
  }

  /** What we will have in our own view after the next commitment, should its updates be lost. */
  ghost function Spared(c: Channel, lane: nat): int
    requires c.Sized() && lane < c.Lanes()
  {
    StepOwed(Restarted(c, c.swaps.local), RcvdCommit, lane, Local)
  }

  /**
    A restart leaves us solvent in our own view too: what the peer gives back but has not committed is not counted on.
   */
  ghost predicate Patient(c: Channel) {
    c.Sized() && forall lane: nat :: lane < c.Lanes() ==> 0 <= Spared(c, lane)
  }

  /** The states that our own view commits next, whatever the peer's lost updates were. */
  predicate Due(s: HtlcState) {
    s == RCVD_ADD_REVOCATION || s == RCVD_REMOVE_REVOCATION
  }

  lemma SparedStays(c: Channel, d: Channel, lane: nat)
    requires c.Sized() && d.Sized() && d.view.local == c.view.local && lane < c.Lanes()
    requires forall k :: k in c.htlcs && Due(c.htlcs[k].state) ==> k in d.htlcs && d.htlcs[k] == c.htlcs[k]
    requires forall k :: k in d.htlcs && Due(d.htlcs[k].state) ==> k in c.htlcs && d.htlcs[k] == c.htlcs[k]
    requires SwapStepEffect(d.swaps.local, RcvdCommit, lane, Local) ==
             SwapStepEffect(c.swaps.local, RcvdCommit, lane, Local)
    requires SwapStepEffect(d.swaps.remote, RcvdCommit, lane, Local) ==
             SwapStepEffect(c.swaps.remote, RcvdCommit, lane, Local)
    ensures Spared(d, lane) == Spared(c, lane)
  {
    hide Sum, SwapStepEffect;
    var x, y := StepTable(Kept(c.htlcs), RcvdCommit, lane, Local), StepTable(Kept(d.htlcs), RcvdCommit, lane, Local);
    forall k ensures (k in x <==> k in y) && (k in x ==> x[k] == y[k]) {
    }
    assert x == y;
  }

  lemma SendCommitSpares(c: Channel, lane: nat)
    requires c.WellFormed() && lane < c.Lanes()
    ensures Spared(Change(c, SendingCommit), lane) == Spared(c, lane)
  {
    var d := Change(c, SendingCommit);
    assert d.view.local == c.view.local;
    hide StepView, StepHeights, SwapEffect, Spared;
    SparedStays(c, d, lane);
  }

  /** After a revocation what the peer's view owes us covers what our own view will commit. */
  lemma RevokeSpares(c: Channel, base: Balances, lane: nat)
    requires c.WellFormed() && Explained(c, base) && Weighable(c, Local) && lane < c.Lanes() && Solvent(c, Remote, lane)
    ensures 0 <= Spared(c, lane)
  {
    hide StepOwed, NextOwed, Explained, Sum, StepTable;
    RestartExplained(c, base, c.swaps.local);
    RestartWeighs(c);
    OwnViewCovered(Restarted(c, c.swaps.local), base, Local, lane);
  }

  lemma RestartWeighs(c: Channel)
    requires Weighable(c, Local)
    ensures Weighable(Restarted(c, c.swaps.local), Local)
  {
  }

  lemma RestsWeighs(c: Channel)
    requires Resting(c, false)
    ensures Weighable(c, Local)
  {
  }

  /** A commitment received and the one before it revoked leave nothing due. */
  lemma NothingDue(htlcs: map<Key, Htlc>, lane: nat)
    ensures StepTable(Kept(StepHtlcs(StepHtlcs(htlcs, RcvdCommit), SendingRevoke)), RcvdCommit, lane, Local) == map[]
  {
    var table := StepTable(Kept(StepHtlcs(StepHtlcs(htlcs, RcvdCommit), SendingRevoke)), RcvdCommit, lane, Local);
    forall k | k in table ensures false {
    }
    assert table == map[];
  }

  lemma NoSwapDue(s: Option<Swap>, lane: nat)
    ensures SwapStepEffect(Forgotten(StepSwap(StepSwap(s, RcvdCommit), SendingRevoke)), RcvdCommit, lane, Local) == 0
  {
  }

  lemma RecvCommitSpares(c: Channel, lane: nat)
    requires c.WellFormed() && lane < c.Lanes()
    ensures var d := SwapDone(Change(Change(c, RcvdCommit), SendingRevoke));
            d.Sized() && d.Lanes() == c.Lanes() && Spared(d, lane) == StepOwed(c, RcvdCommit, lane, Local)
  {
    hide StepTable, Kept, StepHtlcs, SwapStepEffect, StepSwap, Spared;
    var b := Change(c, RcvdCommit);
    var d := SwapDone(Change(b, SendingRevoke));
    assert d.view.local == b.view.local;
    assert b.view.local[lane].local == StepOwed(c, RcvdCommit, lane, Local);
    NothingDue(c.htlcs, lane);
    SumZero(StepTable(Kept(d.htlcs), RcvdCommit, lane, Local));
    NoSwapDue(c.swaps.local, lane);
    NoSwapDue(c.swaps.remote, lane);
    SparedIs(d, lane);
  }

  lemma SparedIs(d: Channel, lane: nat)
    requires d.Sized() && lane < d.Lanes()
    ensures Spared(d, lane) == d.view.local[lane].local + Sum(StepTable(Kept(d.htlcs), RcvdCommit, lane, Local))
                               + SwapStepEffect(d.swaps.local, RcvdCommit, lane, Local)
                               + SwapStepEffect(d.swaps.remote, RcvdCommit, lane, Local)
  {
    hide Sum, StepTable, SwapStepEffect, Kept;
  }

  /** Every action leaves us solvent should we be restarted after it. */
  lemma ActionKeepsPatience(cfg: Config, n: Node, a: Action)
    requires Inv(n) && Enabled(cfg, n, a) && Patient(n.chan)
    ensures Patient(Next(n, a).chan)
  {
    assert a.Settle? ==> CanSettle(n.chan, a.k);
    var c, d := n.chan, Next(n, a).chan;
    ActionKeepsInv(cfg, n, a);
    if a.RecvCommit? { TakenKeepsInv(cfg, n, a); }
    assert d.Lanes() == c.Lanes();
    forall lane: nat | lane < c.Lanes() ensures 0 <= Spared(d, lane) {
      assert 0 <= Spared(c, lane);
      if a.SendCommit? {
        hide Spared, Change, AllSolvent, Explained, Marked, Resting, Enabled;
        SendCommitSpares(c, lane);
      } else if a.RecvRevoke? {
        hide Spared, Change, SwapDone, Explained, Marked, Enabled, Resting, Channel.WellFormed;
        RestsWeighs(d);
        assert Solvent(d, Remote, lane);
        RevokeSpares(d, Next(n, a).base, lane);
      } else if a.RecvCommit? {
        hide Spared, Change, SwapDone, Explained, Marked, Enabled, Resting, TakeSwap;
        var b := BeforeCommit(n, a).chan;
        assert 0 <= StepOwed(b, RcvdCommit, lane, Local);
        RecvCommitSpares(b, lane);
      } else {
        hide Spared, Change, AddResult, SwapCheck, AllSolvent, Explained, Marked, Resting, SwapEffect;
        SparedStays(c, d, lane);
      }
    }
  }

  lemma TakenKeepsInv(cfg: Config, n: Node, a: Action)
    requires Inv(n) && Enabled(cfg, n, a) && a.RecvCommit?
    ensures Inv(BeforeCommit(n, a)) && BeforeCommit(n, a).chan.Lanes() == n.chan.Lanes()
  {
    hide AllSolvent, Explained, Marked, Resting, Channel.WellFormed;
    if a.taken.Some? { SwapKeepsInv(cfg, n, a.taken.value); }
  }

  lemma RestartSolvent(c: Channel, base: Balances, swap: Option<Swap>)
    requires c.WellFormed() && Explained(c, base) && AllSolvent(c) && Patient(c) && SavedSwap(c.swaps.local, swap)
    ensures AllSolvent(Restarted(c, swap)) && Patient(Restarted(c, swap))
  {
    var d := Restarted(c, swap);
    RestartWellFormed(c, swap);
    forall v: Side, lane: nat | lane < c.Lanes() ensures Solvent(d, v, lane) {
      hide Sum, StepTable, Kept, PromisedBy;
      assert Solvent(c, v, lane);
      NothingTaken(c.htlcs, v, lane);
      SavedPromises(c.swaps.local, swap, v, lane, v.Other());
    }
    forall lane: nat | lane < c.Lanes() ensures 0 <= StepOwed(d, RcvdCommit, lane, Local) && 0 <= Spared(d, lane) {
      assert 0 <= Spared(c, lane);
      SavedIsSpared(c, swap, lane);
    }
    assert forall v: Side, lane: nat, p: Side | lane < c.Lanes() :: d.Owed(v, lane, p) == c.Owed(v, lane, p);
  }

  lemma SavedIsSpared(c: Channel, swap: Option<Swap>, lane: nat)
    requires c.Sized() && lane < c.Lanes() && SavedSwap(c.swaps.local, swap)
    ensures StepOwed(Restarted(c, swap), RcvdCommit, lane, Local) == Spared(c, lane) == Spared(Restarted(c, swap), lane)
  {
    hide Sum, StepTable, SwapEffect;
    KeptTwice(c.htlcs);
  }

  lemma KeptTwice(htlcs: map<Key, Htlc>)
    ensures Kept(Kept(htlcs)) == Kept(htlcs)
  {
  }

  lemma RestartRests(c: Channel, awaiting: bool, swap: Option<Swap>)
    requires Resting(c, awaiting) && SavedSwap(c.swaps.local, swap)
    ensures Resting(Restarted(c, swap), awaiting)
  {
  }

  lemma RestartKeepsInv(n: Node, swap: Option<Swap>)
    requires Inv(n) && Patient(n.chan) && SavedSwap(n.chan.swaps.local, swap)
    ensures Inv(n.(chan := Restarted(n.chan, swap))) && Patient(Restarted(n.chan, swap))
  {
    RestartMarked(n.chan, swap);
    hide AllSolvent, Explained, Marked, Resting, Kept, SavedSwap, Channel.WellFormed, Patient;
    RestartExplained(n.chan, n.base, swap);
    RestartRests(n.chan, n.awaiting, swap);
    RestartSolvent(n.chan, n.base, swap);
  }

  lemma RestartMarked(c: Channel, swap: Option<Swap>)
    requires Marked(c)
    ensures Marked(Restarted(c, swap))
  {
  }

  // ---- There is always something to send again

  /** Our update to an HTLC: ours we add, the peer's we remove. */
  function UpdateOf(k: Key, h: Htlc): Msg {
    if k.owner.Local? then Add(k.id, h.(state := SENT_ADD_HTLC)) else Remove(k.id, h.fulfilled)
  }

  function Subject(m: Msg): Key
    requires IsHtlcUpdate(m)
  {
    Key(if m.Add? then Local else Remote, m.id)
  }

  /** Whether our update is in the commitment on its way, or in none. */
  predicate IsOwed(k: Key, h: Htlc, committed: bool) {
    if committed then h.state == (if k.owner.Local? then SENT_ADD_COMMIT else SENT_REMOVE_COMMIT)
    else k.owner.Remote? && h.state == SENT_REMOVE_HTLC
  }

  predicate IsOwedIn(htlcs: map<Key, Htlc>, keys: set<Key>, committed: bool, m: Msg) {
    && IsHtlcUpdate(m) && Subject(m) in keys && Subject(m) in htlcs
    && IsOwed(Subject(m), htlcs[Subject(m)], committed) && m == UpdateOf(Subject(m), htlcs[Subject(m)])
  }

  lemma {:induction false} OwedListed(htlcs: map<Key, Htlc>, keys: set<Key>, committed: bool) returns (u: seq<Msg>)
    requires keys <= htlcs.Keys
    ensures forall m :: m in u <==> IsOwedIn(htlcs, keys, committed, m)
    ensures OnlyUpdates(u) && EachOnce(u)
    decreases |keys|
  {
    u := [];
    if keys != {} {
      var k :| k in keys;
      var rest := keys - {k};
      u := OwedListed(htlcs, rest, committed);
      var m := UpdateOf(k, htlcs[k]);
      if IsOwed(k, htlcs[k], committed) {
        assert Subject(m) == k;
        forall j | 0 <= j < |u| ensures Target(m) != Target(u[j]) {
          assert u[j] in u && Subject(u[j]) in rest;
        }
        u := [m] + u;
      }
    }
  }

  lemma OwedIsResent(d: Channel) returns (u: seq<Msg>, w: seq<Msg>)
    ensures Resends(d, u) && ResendsRemovals(d, w)
  {
    u := OwedListed(d.htlcs, d.htlcs.Keys, true);
    w := OwedListed(d.htlcs, d.htlcs.Keys, false);
    forall id, h ensures Add(id, h) in u <==> IsOwedIn(d.htlcs, d.htlcs.Keys, true, Add(id, h)) {}
    forall id, fulfil ensures Remove(id, fulfil) in u <==> IsOwedIn(d.htlcs, d.htlcs.Keys, true, Remove(id, fulfil)) {}
  }

  // ---- Both ends

  /** What one end does on reconnecting: the swap it still has, and what it sends again. */
  datatype Resumption = Resumption(swap: Option<Swap>, updates: seq<Msg>, removals: seq<Msg>, kinds: seq<Kind>)

  /**
    It follows from what is saved and the two numbers in the other's `channel_reestablish`.  No height is on its way.
   */
  ghost predicate Resumes(p: Peer, o: Peer, x: Resumption) {
    && SavedSwap(p.node.chan.swaps.local, x.swap)
    && Resends(p.node.chan, x.updates) && ResendsRemovals(p.node.chan, x.removals)
    && p.next.local < U64 && p.next.remote < U64
    && Answering(NumbersOf(p), o.next.local, o.revs) == Resend(x.kinds)
    && SteadyHeights(p.node.chan.heights)
  }

  function Resumed(p: Peer, x: Resumption): Peer {
    p.(node := p.node.(chan := Restarted(p.node.chan, x.swap)))
  }

  function SentAgain(p: Peer, x: Resumption): seq<Msg> {
    Again(x.kinds, x.updates + [CommitmentOf(p.node.chan)]) + x.removals
  }

  lemma {:induction false} UpdatesHaveNoKind(q: seq<Msg>)
    requires OnlyUpdates(q)
    ensures Kinds(q) == []
  {
    if q != [] {
      assert q[0] in q;
      UpdatesHaveNoKind(q[1..]);
    }
  }

  lemma {:induction false} KindsOfAgain(ks: seq<Kind>, batch: seq<Msg>)
    requires Kinds(batch) == [CommitSig]
    ensures Kinds(Again(ks, batch)) == ks
  {
    if ks != [] {
      KindsOfAgain(ks[1..], batch);
      assert Kinds([Revocation]) == [RevokeAck];
      KindsAppend(if ks[0].CommitSig? then batch else [Revocation], Again(ks[1..], batch));
      assert ks == [ks[0]] + ks[1..];
      assert ks[0] == CommitSig || ks[0] == RevokeAck;
    }
  }

  lemma KindsSentAgain(p: Peer, o: Peer, x: Resumption)
    requires Resumes(p, o, x)
    ensures Kinds(SentAgain(p, x)) == x.kinds
  {
    var batch := x.updates + [CommitmentOf(p.node.chan)];
    KindsAppend(x.updates, [CommitmentOf(p.node.chan)]);
    UpdatesHaveNoKind(x.updates);
    UpdatesHaveNoKind(x.removals);
    assert Kinds([CommitmentOf(p.node.chan)]) == [CommitSig];
    hide Kinds, Again;
    KindsOfAgain(x.kinds, batch);
    KindsAppend(Again(x.kinds, batch), x.removals);
  }

  lemma ResumedNumbers(p: Peer, x: Resumption)
    ensures NumbersOf(Resumed(p, x)) == NumbersOf(p)
  {
  }

  /** The numbers say exactly what was lost. */
  lemma ResumesExactly(p: Peer, o: Peer, out: seq<Msg>, into: seq<Msg>, x: Resumption)
    requires Counted(p, o, out) && Counted(o, p, into) && Resumes(p, o, x)
    ensures x.kinds == Kinds(out)
  {
    hide Answering, Kinds, Resends, ResendsRemovals, SavedSwap, SteadyHeights;
    AnswerIsExact(NumbersOf(p), NumbersOf(o), Kinds(out), Kinds(into));
  }

  /** And they are never refused. */
  lemma SomeResumption(p: Peer, o: Peer, out: seq<Msg>, into: seq<Msg>) returns (x: Resumption)
    requires Counted(p, o, out) && Counted(o, p, into) && SteadyHeights(p.node.chan.heights)
    requires p.next.local < U64 && p.next.remote < U64
    ensures Resumes(p, o, x)
  {
    hide Answering, Kinds, Resends, ResendsRemovals;
    AnswerIsExact(NumbersOf(p), NumbersOf(o), Kinds(out), Kinds(into));
    var u, w := OwedIsResent(p.node.chan);
    x := Resumption(p.node.chan.swaps.local, u, w, Kinds(out));
  }

  lemma InvIsUpToDate(n: Node)
    requires Inv(n) && SteadyHeights(n.chan.heights)
    ensures UpToDate(n.chan)
  {
    hide AllSolvent, Explained;
  }

  lemma RestartKeepsContent(c: Channel, swap: Option<Swap>)
    requires SavedSwap(c.swaps.local, swap)
    ensures ContentOf(Restarted(c, swap), Remote) == ContentOf(c, Remote) && SwapTold(Restarted(c, swap)) == SwapTold(c)
  {
    assert CommittedTerms(Kept(c.htlcs), Remote) == CommittedTerms(c.htlcs, Remote);
  }

  lemma {:induction false} AgainHolds(ks: seq<Kind>, batch: seq<Msg>, m: Msg)
    requires m in Again(ks, batch)
    ensures m in batch || m == Revocation
  {
    if m !in (if ks[0].CommitSig? then batch else [Revocation]) {
      AgainHolds(ks[1..], batch, m);
    }
  }

  lemma SignedAgain(p: Peer, o: Peer, x: Resumption)
    requires Resumes(p, o, x)
    ensures Signed(Restarted(p.node.chan, x.swap), SentAgain(p, x))
  {
    RestartKeepsContent(p.node.chan, x.swap);
    hide ContentOf, SwapTold, Again, Answering, Restarted;
    var c := Restarted(p.node.chan, x.swap);
    var batch := x.updates + [CommitmentOf(p.node.chan)];
    forall m | m in SentAgain(p, x) && m.Commitment? ensures m.signed == ContentOf(c, Remote) && m.swap == SwapTold(c) {
      if m in Again(x.kinds, batch) { AgainHolds(x.kinds, batch, m); }
    }
  }

  /** One end gets again what the other sends again. */
  lemma EndRedelivers(p: Peer, o: Peer, out: seq<Msg>, into: seq<Msg>, x: Resumption, y: Resumption)
    requires InvFrom(p, o, out, into) && NoHeights(into) && Resumes(p, o, x) && Resumes(o, p, y)
    ensures var c, c' := p.node.chan, Restarted(p.node.chan, x.swap);
            && c.Sized() && c'.Sized() && FitsAll(c', SentAgain(o, y))
            && Trimmed(Deliver(c, into), Deliver(c', SentAgain(o, y)), false)
  {
    InvIsUpToDate(p.node);
    InvIsUpToDate(o.node);
    UpToDateIsSized(o.node.chan);
    UpToDateIsSized(p.node.chan);
    ResumesExactly(o, p, into, out, y);
    OneOutstanding(p, o, out, into);
    OneOutstanding(o, p, into, out);
    hide Inv, Counted, FitsAll, Deliver, Count, UpToDate, Again, Trimmed, Signed, Answering, ContentOf, SwapTold, Kept,
         SavedSwap;
    hide SteadyHeights, Resends, ResendsRemovals;
    assert IsMirror(Deliver(p.node.chan, into), Deliver(o.node.chan, out));
    Redelivers(p.node.chan, Restarted(p.node.chan, x.swap), o.node.chan, into, out, y.updates, y.removals);
  }

  /**
    A reconnection, at whatever moment: both ends start again from what was saved and send again what the numbers say
    was lost, and everything holds as before.
   */
  lemma ReconnectKeepsInv(p: Peer, o: Peer, out: seq<Msg>, into: seq<Msg>, x: Resumption, y: Resumption)
    requires InvFrom(p, o, out, into) && Patient(p.node.chan) && Patient(o.node.chan)
    requires NoHeights(out) && NoHeights(into) && Resumes(p, o, x) && Resumes(o, p, y)
    ensures InvFrom(Resumed(p, x), Resumed(o, y), SentAgain(p, x), SentAgain(o, y))
    ensures Patient(Resumed(p, x).node.chan) && Patient(Resumed(o, y).node.chan)
  {
    hide Inv, Patient, Numbered, Kinds, FitsAll, Signed, IsMirror, Deliver, Restarted, Trimmed, NoHeights, SentAgain,
         NumbersOf;
    assert SavedSwap(p.node.chan.swaps.local, x.swap) && SavedSwap(o.node.chan.swaps.local, y.swap);
    ResumesExactly(p, o, out, into, x);
    ResumesExactly(o, p, into, out, y);
    LinkedIsSymmetric(p.node.chan, o.node.chan, out, into);
    hide Resumes;
    KindsSentAgain(p, o, x);
    KindsSentAgain(o, p, y);
    ResumedNumbers(p, x);
    ResumedNumbers(o, y);
    RestartKeepsInv(p.node, x.swap);
    RestartKeepsInv(o.node, y.swap);
    SignedAgain(p, o, x);
    SignedAgain(o, p, y);
    EndRedelivers(p, o, out, into, x, y);
    EndRedelivers(o, p, into, out, y, x);
    TrimmedMirrors(Deliver(p.node.chan, into), Deliver(o.node.chan, out),
                   Deliver(Restarted(p.node.chan, x.swap), SentAgain(o, y)),
                   Deliver(Restarted(o.node.chan, y.swap), SentAgain(p, x)));
  }
}
