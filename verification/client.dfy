/**
 * The client side of a pub's life: packing values with GUIDs drawn from the
 * client's pool, and SOS_announce / SOS_publish, which hand messages to the
 * daemon. Sending is modelled as the list of messages produced, in order;
 * the daemon's replies are not looked at by these calls.
 */
module Client {
  import opened Wrappers
  import opened Enums
  import opened Wire
  import opened Pubs
  import Guid
  import opened Serial

  datatype PackStep = PackStep(index: nat, pub: Pub, pool: Guid.Uid)

  /** SOS_pack on a client: a new name takes its GUID from the client's pool
      (`refill` is the daemon's answer should the pool run out). */
  function ClientPack(p: Pub, name: string, v: Val, now: Float64, pool: Guid.Uid, refill: Guid.Uid, chunk: nat): (r: PackStep)
    requires Valid(p) && chunk > 0
    ensures Valid(r.pub) && FindName(r.pub, name) == Some(r.index) && r.pub.data[r.index].val == v
    ensures FindName(p, name).Some? ==> r.pool == pool && r.pub.announced == p.announced
    ensures FindName(p, name).None? ==>
      && r.pub.data[r.index].guid == pool.next
      && r.pool == Guid.UidNext(pool, Guid.ClientRole, refill).pool
      && r.pub.announced == NotAnnounced
  {
    match FindName(p, name)
    case Some(_) =>
      var o := Pack(p, name, v, now, pool.next, chunk);
      PackStep(o.index, o.pub, pool)
    case None =>
      var s := Guid.UidNext(pool, Guid.ClientRole, refill);
      var o := Pack(p, name, v, now, s.serial, chunk);
      PackStep(o.index, o.pub, s.pool)
  }

  datatype Outbox = Outbox(msgs: seq<Message>, pub: Pub)

  /** SOS_announce: send the ANNOUNCE and mark the pub announced. */
  function Announce(p: Pub, myGuid: int, w: Widths): (r: Outbox)
    requires Valid(p)
    ensures r.pub == p.(announced := Announced)
    ensures r.msgs == [AnnounceToBuffer(p, myGuid, w)]
    ensures r.msgs[0].header.msgType == MsgTypeOrdinal(Enums.Announce) && r.msgs[0].header.pubGuid == p.guid
  {
    Outbox([AnnounceToBuffer(p, myGuid, w)], p.(announced := Announced))
  }

  /** SOS_publish: a pub not yet announced (or changed in shape since) is
      announced first; then the PUBLISH is sent, even when no slot is DIRTY. */
  function Publish(p: Pub, myGuid: int, send: Float64, w: Widths): (r: Outbox)
    requires Valid(p)
    ensures Valid(r.pub) && r.pub.announced != NotAnnounced
    ensures |r.msgs| == (if p.announced == NotAnnounced then 2 else 1)
    ensures r.msgs[|r.msgs| - 1].header.msgType == MsgTypeOrdinal(Enums.Publish)
    ensures p.announced == NotAnnounced ==> r.msgs[0] == AnnounceToBuffer(p, myGuid, w)
    // the PUBLISH and the pub left behind are those of SOS_publish_to_buffer,
    // applied to the pub as it stands after any announce
    ensures var a := if p.announced == NotAnnounced then p.(announced := Announced) else p;
      var o := PublishToBuffer(a, myGuid, send, w);
      r.msgs[|r.msgs| - 1] == o.msg && r.pub == o.pub
    ensures forall j :: 0 <= j < r.pub.elemCount ==> r.pub.data[j].state != Dirty
    ensures r.pub.elemCount == p.elemCount && Schema(r.pub) == Schema(p)
  {
    var a := if p.announced == NotAnnounced then Announce(p, myGuid, w) else Outbox([], p);
    var o := PublishToBuffer(a.pub, myGuid, send, w);
    assert forall j :: 0 <= j < p.elemCount ==> Schema(o.pub)[j] == Schema(p)[j];
    Outbox(a.msgs + [o.msg], o.pub)
  }

  /** The auto-announce rule: packing a name the pub has not seen makes the
      next SOS_publish send an ANNOUNCE carrying the new schema first. */
  lemma NewNameForcesAnnounce(p: Pub, name: string, v: Val, now: Float64, pool: Guid.Uid, refill: Guid.Uid,
                              chunk: nat, myGuid: int, send: Float64, w: Widths)
    requires Valid(p) && chunk > 0 && FindName(p, name).None?
    ensures var c := ClientPack(p, name, v, now, pool, refill, chunk);
            var r := Publish(c.pub, myGuid, send, w);
            |r.msgs| == 2 && r.msgs[0].header.msgType == MsgTypeOrdinal(Enums.Announce)
            && Schema(c.pub)[c.index].name == name
  {
  }

  /** Publishing an announced pub whose schema is unchanged sends the PUBLISH
      alone. */
  lemma AnnouncedPublishesAlone(p: Pub, myGuid: int, s1: Float64, s2: Float64, w: Widths)
    requires Valid(p)
    ensures var r1 := Publish(p, myGuid, s1, w);
            var r2 := Publish(r1.pub, myGuid, s2, w);
            |r2.msgs| == 1 && r2.msgs[0].body == []
  {
  }

  /** What SOS_publish actually sends reaches a daemon copy that agrees on the
      slot types as the wire round trip says: every DIRTY slot is delivered. */
  lemma SentPublishDelivers(p: Pub, q: Pub, myGuid: int, send: Float64, w: Widths)
    requires Valid(p) && Valid(q) && SameTypes(p, q, 0, p.elemCount)
    ensures var r := Publish(p, myGuid, send, w);
      ApplyPublish(q, r.msgs[|r.msgs| - 1]) == Success(q.(data := Target(p, q, 0, p.elemCount, send)))
  {
    var a := if p.announced == NotAnnounced then p.(announced := Announced) else p;
    PublishRoundTrip(a, q, myGuid, send, w);
    assert Target(a, q, 0, a.elemCount, send) == Target(p, q, 0, p.elemCount, send);
  }
}
