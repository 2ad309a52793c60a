/** Forgetting a peer, and which snapshots can be restored. */
module OutboxForget {
  import opened Wrappers
  import opened OutboxModel
  import opened OutboxQueue
  import opened OutboxExpiry

  /** Every message of the peer leaves and is reported, no other is touched, and the rest keep their order and the counter
      its value. */
  lemma ForgetEffect(box: Box, peer: string)
    requires StrictIds(box.entries, box.nextId)
    ensures var after, report := Forgotten(box, peer), ForgottenReport(box, peer);
            && after.nextId == box.nextId && StrictIds(after.entries, after.nextId)
            && (forall e :: e in after.entries <==> e in box.entries && e.peer != peer)
            && (forall d :: d in report <==>
                  exists e :: e in box.entries && e.peer == peer && d == Dropped(e.id, e.channel, e.peer, PeerForgotten))
  {
    KeptStrict(OfPeer(peer), box.entries, box.nextId);
    var report := ForgottenReport(box, peer);
    forall d ensures d in report <==>
      exists e :: e in box.entries && e.peer == peer && d == Dropped(e.id, e.channel, e.peer, PeerForgotten)
    {
      if d in report {
        var e := ReportedLost(OfPeer(peer), box.entries, PeerForgotten, d);
        assert e.peer == peer;
      }
      forall e | e in box.entries && e.peer == peer && d == Dropped(e.id, e.channel, e.peer, PeerForgotten)
        ensures d in report
      {
        LostReported(OfPeer(peer), box.entries, e, PeerForgotten);
      }
    }
  }

  /** A stored queue is taken over exactly if its version is one, whole. */
  lemma RestoredExactlyWhen(s: Snapshot)
    ensures Import(s).Ok? <==> s.v == 1
    ensures Import(s).Ok? ==> Import(s).value.entries == s.entries && Import(s).value.nextId == s.nextId
  {
  }
}
