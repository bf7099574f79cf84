/** Packets whose sender is not known yet (the unknown-SSRC queues of AudioReader, reader.py): the operations under
    the queue's lock. */
module UnknownQueue {
  import opened Deferral

  const MAX_UNKNOWN: nat := 32
  const MAX_UNKNOWN_AGE: real := 0.5

  /** A packet on its way to the router, numbered in the order in which packets reach `_route_rtp_packet`. */
  datatype Parcel = Parcel(serial: nat, packet: Datagram)

  /** `PendingUnknownPacket`. */
  datatype Held = Held(parcel: Parcel, queuedAt: real)

  type Shelf = map<nat, seq<Held>>

  datatype Tally = Tally(queued: nat, flushed: nat, nonAudio: nat, expired: nat, overflow: nat)

  function At(m: Shelf, ssrc: nat): seq<Held> {
    if ssrc in m then m[ssrc] else []
  }

  predicate Old(h: Held, now: real) {
    now - h.queuedAt > MAX_UNKNOWN_AGE
  }

  predicate Ahead(a: Held, b: Held) {
    a.queuedAt <= b.queuedAt && a.parcel.serial < b.parcel.serial
  }

  /** Oldest first, and in the order of arrival. */
  ghost predicate Ordered(queue: seq<Held>) {
    forall i, k | 0 <= i < k < |queue| :: Ahead(queue[i], queue[k])
  }

  /** Every packet that is not too old, wherever it stands. */
  function Young(queue: seq<Held>, now: real): seq<Held> {
    if queue == [] then [] else (if Old(queue[0], now) then [] else [queue[0]]) + Young(queue[1..], now)
  }

  lemma {:induction false} YoungPart(queue: seq<Held>, now: real)
    ensures |Young(queue, now)| <= |queue|
    ensures forall h :: h in Young(queue, now) <==> h in queue && !Old(h, now)
  {
    if queue != [] {
      YoungPart(queue[1..], now);
      assert queue == [queue[0]] + queue[1..];
    }
  }

  lemma {:induction false} AllYoung(queue: seq<Held>, now: real)
    requires forall h | h in queue :: !Old(h, now)
    ensures Young(queue, now) == queue
  {
    if queue != [] {
      AllYoung(queue[1..], now);
    }
  }

  /** Filtering twice at one time is filtering once. */
  lemma YoungAgain(queue: seq<Held>, now: real)
    ensures Young(Young(queue, now), now) == Young(queue, now)
  {
    YoungPart(queue, now);
    AllYoung(Young(queue, now), now);
  }

  /** If the first is young, all are: so taking old packets off the front takes them all. */
  lemma FirstIsOldest(queue: seq<Held>, now: real)
    requires Ordered(queue) && (queue != [] ==> !Old(queue[0], now))
    ensures Young(queue, now) == queue
  {
    AllYoung(queue, now);
  }

  /** What filtering keeps is in the same order. */
  lemma {:induction false} YoungKeepsOrder(queue: seq<Held>, now: real)
    requires Ordered(queue)
    ensures Ordered(Young(queue, now))
  {
    hide Old, Ordered;
    EmptyIsOrdered();
    if queue != [] {
      var rest := Young(queue[1..], now);
      TailKeepsOrder(queue);
      YoungKeepsOrder(queue[1..], now);
      YoungComesLater(queue, now);
      FrontKeepsOrder(queue[0], rest);
      assert [] + rest == rest;
    }
  }

  lemma EmptyIsOrdered()
    ensures Ordered([])
  {
  }

  lemma TailKeepsOrder(queue: seq<Held>)
    requires Ordered(queue) && queue != []
    ensures Ordered(queue[1..])
  {
  }

  lemma YoungComesLater(queue: seq<Held>, now: real)
    requires Ordered(queue) && queue != []
    ensures forall h | h in Young(queue[1..], now) :: Ahead(queue[0], h)
  {
    hide Young, Old, Ahead;
    YoungPart(queue[1..], now);
  }

  lemma FrontKeepsOrder(h: Held, rest: seq<Held>)
    requires Ordered(rest) && forall x | x in rest :: Ahead(h, x)
    ensures Ordered([h] + rest)
  {
    hide Ahead;
  }

  // ----- Packets in the order of arrival -----

  ghost predicate Rising(ps: seq<Parcel>) {
    forall i, k | 0 <= i < k < |ps| :: ps[i].serial < ps[k].serial
  }

  function Parcels(queue: seq<Held>): seq<Parcel> {
    if queue == [] then [] else [queue[0].parcel] + Parcels(queue[1..])
  }

  lemma {:induction false} ParcelsOf(queue: seq<Held>, p: Parcel)
    ensures |Parcels(queue)| == |queue|
    ensures p in Parcels(queue) <==> exists h :: h in queue && h.parcel == p
  {
    if queue != [] {
      ParcelsOf(queue[1..], p);
      assert queue == [queue[0]] + queue[1..];
      assert queue[0] in queue;
      if h :| h in queue[1..] && h.parcel == p {
        assert h in queue;
      }
    }
  }

  lemma {:induction false} ParcelsRise(queue: seq<Held>)
    requires Ordered(queue)
    ensures Rising(Parcels(queue))
  {
    if queue != [] {
      ParcelsRise(queue[1..]);
      var rest := Parcels(queue[1..]);
      forall k | 0 <= k < |rest|
        ensures queue[0].parcel.serial < rest[k].serial
      {
        ParcelsOf(queue[1..], rest[k]);
        var h :| h in queue[1..] && h.parcel == rest[k];
        var j :| 1 <= j < |queue| && queue[j] == h;
        assert Ahead(queue[0], queue[j]);
      }
    }
  }

  // ----- Counting -----

  ghost function Total(m: Shelf): nat
    decreases |m|
  {
    if m == map[] then 0 else
      var k :| k in m;
      |m[k]| + Total(m - {k})
  }

  lemma {:induction false} TotalWithout(m: Shelf, k: nat)
    requires k in m
    ensures Total(m) == |m[k]| + Total(m - {k})
    decreases |m|
  {
    var j :| j in m && Total(m) == |m[j]| + Total(m - {j});
    if j != k {
      TotalWithout(m - {j}, k);
      assert k in m - {j} && j in m - {k};
      assert (m - {j}) - {k} == (m - {k}) - {j};
      TotalWithout(m - {k}, j);
    }
  }

  lemma TotalWith(m: Shelf, k: nat, queue: seq<Held>)
    ensures Total(m[k := queue]) == Total(m) - |At(m, k)| + |queue|
    ensures Total(m - {k}) == Total(m) - |At(m, k)|
  {
    TotalWithout(m[k := queue], k);
    assert m[k := queue] - {k} == m - {k};
    if k in m {
      TotalWithout(m, k);
    } else {
      assert m - {k} == m;
    }
  }

  // ----- The operations under the lock -----

  /** `_expire_pending_unknown_locked`. */
  function Expired(m: Shelf, now: real): Shelf {
    map ssrc | ssrc in m && Young(m[ssrc], now) != [] :: Young(m[ssrc], now)
  }

  lemma ExpiredAt(m: Shelf, now: real, ssrc: nat)
    ensures At(Expired(m, now), ssrc) == Young(At(m, ssrc), now)
  {
  }

  lemma {:induction false} ExpiryShrinks(m: Shelf, now: real)
    ensures Total(Expired(m, now)) <= Total(m)
    decreases |m|
  {
    if m == map[] {
      assert Expired(m, now) == map[];
    } else {
      var k :| k in m;
      ExpiryShrinks(m - {k}, now);
      assert Expired(m - {k}, now) == Expired(m, now) - {k};
      TotalWithout(m, k);
      TotalWith(Expired(m, now), k, []);
      ExpiredAt(m, now, k);
      YoungPart(m[k], now);
    }
  }

  /** The newest that fit. */
  function Capped(queue: seq<Held>): seq<Held> {
    if |queue| > MAX_UNKNOWN then queue[|queue| - MAX_UNKNOWN..] else queue
  }

  /** The queue of a packet once it has joined (`_queue_pending_unknown_packet`). */
  function Joining(m: Shelf, p: Parcel, now: real): seq<Held> {
    Young(At(m, p.packet.ssrc), now) + [Held(p, now)]
  }

  function Queued(m: Shelf, p: Parcel, now: real): Shelf {
    Expired(m, now)[p.packet.ssrc := Capped(Joining(m, p, now))]
  }

  /** `_flush_pending_unknown_for_ssrc`: the shelf, and what is to be flushed. */
  function Taken(m: Shelf, ssrc: nat, now: real): (Shelf, seq<Parcel>) {
    (Expired(m, now) - {ssrc}, Parcels(Young(At(m, ssrc), now)))
  }

  /** Each queue holds 1 to 32 packets of its SSRC, oldest first, in the order of arrival. */
  ghost predicate Kempt(m: Shelf, now: real) {
    forall ssrc | ssrc in m ::
      && 1 <= |m[ssrc]| <= 32 && Ordered(m[ssrc])
      && forall h | h in m[ssrc] :: h.parcel.packet.ssrc == ssrc && h.queuedAt <= now
  }

  lemma ExpiredIsKempt(m: Shelf, now: real, later: real)
    requires Kempt(m, now) && now <= later
    ensures Kempt(Expired(m, later), later)
  {
    hide Young, Old, Ordered;
    var n := Expired(m, later);
    forall ssrc | ssrc in n
      ensures 1 <= |n[ssrc]| <= MAX_UNKNOWN && Ordered(n[ssrc])
      ensures forall h: Held | h in n[ssrc] :: h.parcel.packet.ssrc == ssrc && h.queuedAt <= later
    {
      YoungPart(m[ssrc], later);
      YoungKeepsOrder(m[ssrc], later);
    }
  }

  lemma CappedKeeps(queue: seq<Held>, h: Held)
    requires Ordered(queue) && forall x | x in queue :: Ahead(x, h)
    ensures var kept := Capped(queue + [h]);
            && 1 <= |kept| <= MAX_UNKNOWN && Ordered(kept)
            && forall x | x in kept :: x in queue || x == h
  {
    hide Ahead;
    var all := queue + [h];
    assert Ordered(all);
  }

  lemma QueuedIsKempt(m: Shelf, p: Parcel, now: real)
    requires Kempt(m, now) && forall h | h in At(m, p.packet.ssrc) :: h.parcel.serial < p.serial
    ensures Kempt(Queued(m, p, now), now)
  {
    hide Young, Old, Ordered, Capped, Expired;
    var ssrc := p.packet.ssrc;
    ExpiredIsKempt(m, now, now);
    YoungPart(At(m, ssrc), now);
    EmptyIsOrdered();
    YoungKeepsOrder(At(m, ssrc), now);
    CappedKeeps(Young(At(m, ssrc), now), Held(p, now));
  }
}
