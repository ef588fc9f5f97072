/** Channel reestablishment: from two numbers each end works out what the other never got. */
module Reestablish {
  import opened Sides
  import opened Links

  const U64 := 0x1_0000_0000_0000_0000

  /** Subtraction of 64-bit unsigned numbers. */
  function Minus(a: nat, b: nat): nat {
    (a - b) % U64
  }

  datatype Answer = Refuse | Resend(kinds: seq<Kind>)

  /** The branch on `next_revocation_number`: whether to resend our revocation, or nothing if the numbers cannot be. */
  function RevocationLost(p: Numbers, nextRevocation: nat): Option<bool> {
    if nextRevocation == Minus(p.next.local, 2) then (if p.next.local < 2 then None else Some(true))
    else if nextRevocation != Minus(p.next.local, 1) then None
    else Some(false)
  }

  /** The branch on `next_commitment_number`. */
  function CommitmentLost(p: Numbers, nextCommitment: nat): Option<bool> {
    if nextCommitment == Minus(p.next.remote, 1) then (if nextCommitment == 0 then None else Some(true))
    else if nextCommitment != p.next.remote then None
    else Some(false)
  }

  /** `peer_reconnect`: a lost revocation goes before or after a lost commitment, as it was sent. */
  function Answering(p: Numbers, nextCommitment: nat, nextRevocation: nat): Answer {
    var revoke, commit := RevocationLost(p, nextRevocation), CommitmentLost(p, nextCommitment);
    if revoke.None? || commit.None? then Refuse
    else
      Resend((if revoke.value && !p.lastWasRevoke then [RevokeAck] else [])
             + (if commit.value then [CommitSig] else [])
             + (if revoke.value && p.lastWasRevoke then [RevokeAck] else []))
  }

  lemma {:induction false} KindsAddUp(ks: seq<Kind>)
    ensures |ks| == CountOf(ks, CommitSig) + CountOf(ks, RevokeAck)
  {
    if ks != [] {
      KindsAddUp(ks[1..]);
      assert ks == [ks[0]] + ks[1..];
      assert ks[0] == CommitSig || ks[0] == RevokeAck;
      assert multiset(ks) == multiset{ks[0]} + multiset(ks[1..]);
    }
  }

  lemma FewKinds(ks: seq<Kind>)
    requires CountOf(ks, CommitSig) <= 1 && CountOf(ks, RevokeAck) <= 1
    ensures ks == [] || ks == [CommitSig] || ks == [RevokeAck] || ks == [CommitSig, RevokeAck]
            || ks == [RevokeAck, CommitSig]
  {
    KindsAddUp(ks);
    if |ks| == 2 {
      assert ks == [ks[0], ks[1]];
    } else if |ks| == 1 {
      assert ks == [ks[0]];
    }
  }

  lemma AnswerIsExact(p: Numbers, o: Numbers, ks: seq<Kind>, into: seq<Kind>)
    requires Numbered(p, o, ks) && Numbered(o, p, into)
    requires p.next.local < U64 && p.next.remote < U64
    requires 0 < o.next.local
    ensures Answering(p, o.next.local, o.revs) == Resend(ks)
  {
    assert CountOf(ks, CommitSig) <= 1 && CountOf(ks, RevokeAck) <= 1;
    FewKinds(ks);
    hide CountOf;
    assert CountOf([], CommitSig) == CountOf([], RevokeAck) == 0;
    assert CountOf([CommitSig], CommitSig) == CountOf([RevokeAck], RevokeAck) == 1;
    assert CountOf([RevokeAck], CommitSig) == CountOf([CommitSig], RevokeAck) == 0;
    assert CountOf([CommitSig, RevokeAck], CommitSig) == CountOf([CommitSig, RevokeAck], RevokeAck) == 1;
    assert CountOf([RevokeAck, CommitSig], CommitSig) == CountOf([RevokeAck, CommitSig], RevokeAck) == 1;
  }
}
