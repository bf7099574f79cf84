/** Sending order across the rollover of 16-bit sequence numbers. */
module Rollover {
  import opened Bytes
  import opened Modular
  import opened Options
  import opened Dave
  import opened Deferral
  import opened DrainFacts
  import opened BucketFacts
  import opened Placement
  import opened Pipeline
  import opened Bounds

  /** The number a sender would have used had it not wrapped at 16 bits. */
  type Index = nat -> int

  ghost predicate Numbers(idx: Index, p: Datagram) {
    idx(p.id) % 0x1_0000 == p.sequence
  }

  /** The packets were sent within less than half a round of sequence numbers. */
  ghost predicate Narrow(idx: Index, ids: set<nat>) {
    forall a, b | a in ids && b in ids :: idx(a) - idx(b) < 32768
  }

  ghost predicate InSendOrder(idx: Index, queue: seq<Entry>) {
    forall i, k | 0 <= i < k < |queue| :: idx(queue[i].packet.id) <= idx(queue[k].packet.id)
  }

  // ----- Sorting by distance sorts by sending order -----

  /** Within half a round the signed distance is the true one, whatever the anchor. */
  lemma DistanceIsTrue(idx: Index, p: Datagram, anchor: Datagram)
    requires Numbers(idx, p) && Numbers(idx, anchor) && Narrow(idx, {p.id, anchor.id})
    ensures Distance(p.sequence, anchor.sequence) == idx(p.id) - idx(anchor.id)
  {
    var d := idx(p.id) - idx(anchor.id);
    assert -32768 < d < 32768 by {
      assert p.id in {p.id, anchor.id} && anchor.id in {p.id, anchor.id};
    }
    assert (p.sequence - anchor.sequence + 32768) % 0x1_0000 == (d + 32768) % 0x1_0000;
  }

  /** The sort of a queue is by distance. */
  ghost predicate ByDistance(queue: seq<Entry>, anchor: Seq16) {
    forall i, k | 0 <= i < k < |queue| ::
      Distance(queue[i].packet.sequence, anchor) <= Distance(queue[k].packet.sequence, anchor)
  }

  lemma {:induction false} PlacedSorts(queue: seq<Entry>, e: Entry, anchor: Seq16)
    requires ByDistance(queue, anchor)
    ensures ByDistance(Placed(queue, e, anchor), anchor)
    decreases |queue|
  {
    hide Distance;
    if queue != [] {
      var n := |queue| - 1;
      if Distance(queue[n].packet.sequence, anchor) > Distance(e.packet.sequence, anchor) {
        PlacedSorts(queue[..n], e, anchor);
        var r := Placed(queue[..n], e, anchor);
        forall i | 0 <= i < |r|
          ensures Distance(r[i].packet.sequence, anchor) <= Distance(queue[n].packet.sequence, anchor)
        {
          PlacedMember(queue[..n], e, anchor, r[i]);
        }
      }
    }
  }

  lemma PlacedMember(queue: seq<Entry>, e: Entry, anchor: Seq16, x: Entry)
    requires x in Placed(queue, e, anchor)
    ensures x in queue || x == e
  {
    PlacedKeeps(queue, e, anchor);
    assert x in multiset(queue) + multiset{e};
  }

  lemma {:induction false} SortedBySorts(queue: seq<Entry>, anchor: Seq16)
    ensures ByDistance(SortedBy(queue, anchor), anchor)
  {
    hide Distance, Placed;
    if queue != [] {
      SortedBySorts(queue[..|queue| - 1], anchor);
      PlacedSorts(SortedBy(queue[..|queue| - 1], anchor), queue[|queue| - 1], anchor);
    }
  }

  /** Deferring leaves a queue in sending order, in whatever order it was before and whatever its anchor. */
  lemma EnqueuedInSendOrder(idx: Index, queue: seq<Entry>, e: Entry)
    requires Narrow(idx, IdSet(queue) + {e.packet.id})
    requires Numbers(idx, e.packet) && forall x | x in queue :: Numbers(idx, x.packet)
    ensures InSendOrder(idx, Enqueued(queue, e))
  {
    hide Numbers, Distance, SortedBy;
    var anchor := (queue + [e])[0].packet;
    var r := Enqueued(queue, e);
    EnqueuedAdds(queue, e);
    SortedBySorts(queue + [e], anchor.sequence);
    forall x | x in r
      ensures Distance(x.packet.sequence, anchor.sequence) == idx(x.packet.id) - idx(anchor.id)
    {
      assert x in EntrySet(queue) + {e};
      assert x.packet.id in IdSet(queue) + {e.packet.id};
      assert anchor.id in IdSet(queue) + {e.packet.id};
      DistanceIsTrue(idx, x.packet, anchor);
    }
  }

  /** The bound is sharp: exactly half a round later, a packet is sorted in front. */
  lemma HalfARoundIsTooFar(idx: Index, a: Entry, e: Entry)
    requires Numbers(idx, a.packet) && Numbers(idx, e.packet)
    requires idx(e.packet.id) - idx(a.packet.id) == 32768
    ensures Enqueued([a], e) == [e, a]
  {
    assert (e.packet.sequence - a.packet.sequence + 32768) % 0x1_0000 == 0;
    var anchor := a.packet.sequence;
    assert Distance(e.packet.sequence, anchor) == -32768 && Distance(anchor, anchor) == 0;
    assert [a][..0] == [];
    assert SortedBy([a], anchor) == Placed([], a, anchor) == [] + [a];
    assert Placed([a], e, anchor) == Placed([], e, anchor) + [a];
    assert ([a] + [e])[..1] == [a];
  }

  /** What overflow evicts is the oldest packet of all. */
  lemma OverflowEvictsOldest(idx: Index, d: Dec, env: Env, p: Datagram, payload: Bytes, reason: Reason, id: nat)
    requires Tidy(d) && d.generation == Some(env.state.generation) && p.id !in AllIds(d.buckets)
    requires var waiting := QueueOf(d.buckets, p.ssrc);
             && |waiting| == 1024 && Narrow(idx, IdSet(waiting) + {p.id}) && id in IdSet(waiting) + {p.id}
             && Numbers(idx, p) && forall x | x in waiting :: Numbers(idx, x.packet)
    requires id !in AllIds(Deferred(d, env, p, payload, reason).buckets)
    ensures forall other | other in IdSet(QueueOf(d.buckets, p.ssrc)) + {p.id} :: idx(id) <= idx(other)
  {
    hide Enqueued, WithQueue, AllIds, QueueOf, DistinctAll, KeysDistinct, Distinct, Numbers;
    var waiting := QueueOf(d.buckets, p.ssrc);
    var entry := Entry(p, payload, reason, env.now, MaxAge(env));
    var queue := Enqueued(waiting, entry);
    DeferredQueues(d, env, p, payload, reason);
    QueueIsInside(d.buckets, p.ssrc);
    EnqueuedInSendOrder(idx, waiting, entry);
    EnqueuedAdds(waiting, entry);
    assert id == queue[0].packet.id;
    forall other | other in IdSet(waiting) + {p.id}
      ensures idx(id) <= idx(other)
    {
      assert other in IdSet(queue);
      var x :| x in queue && x.packet.id == other;
    }
  }

  // ----- Steps -----

  /** All packets so far are numbered by `idx`. */
  ghost predicate Numbered(idx: Index, w: World) {
    forall id | id in w.births :: Numbers(idx, w.births[id].packet)
  }

  /** A packet that arrives was sent within half a round of those of its SSRC that are waiting. */
  ghost predicate NarrowStep(idx: Index, w: World, s: Step) {
    s.Receive1? ==>
      Narrow(idx, IdSet(QueueOf(Observed(w.dec, w.conn.generation).buckets, s.packet.ssrc)) + {s.packet.id})
  }

  ghost predicate NarrowRun(idx: Index, w: World, steps: seq<Step>)
    decreases |steps|
  {
    steps == [] || (NarrowRun(idx, w, steps[..|steps| - 1])
                    && NarrowStep(idx, After(w, steps[..|steps| - 1]), steps[|steps| - 1]))
  }

  ghost predicate AllInSendOrder(idx: Index, bs: seq<Bucket>) {
    forall ssrc :: InSendOrder(idx, QueueOf(bs, ssrc))
  }

  lemma DeferredInSendOrder(idx: Index, d: Dec, env: Env, p: Datagram, payload: Bytes, reason: Reason)
    requires KeysDistinct(d.buckets) && d.generation == Some(env.state.generation) && AllInSendOrder(idx, d.buckets)
    requires Narrow(idx, IdSet(QueueOf(d.buckets, p.ssrc)) + {p.id})
    requires Numbers(idx, p) && forall x | x in AllEntries(d.buckets) :: Numbers(idx, x.packet)
    ensures AllInSendOrder(idx, Deferred(d, env, p, payload, reason).buckets)
  {
    hide Enqueued, WithQueue, QueueOf, KeysDistinct, Numbers, AllEntries, AllIds, Narrow, InSendOrder;
    ObservedAgain(d, env.state.generation);
    var waiting := QueueOf(d.buckets, p.ssrc);
    var entry := Entry(p, payload, reason, env.now, MaxAge(env));
    QueueIsInside(d.buckets, p.ssrc);
    assert forall x | x in waiting :: x in EntrySet(waiting);
    EnqueuedInSendOrder(idx, waiting, entry);
    var queue := Enqueued(waiting, entry);
    TailInSendOrder(idx, queue);
    WithQueueKeys(d.buckets, p.ssrc, if |queue| > MAX_PER_SSRC then queue[1..] else queue);
  }

  lemma TailInSendOrder(idx: Index, queue: seq<Entry>)
    requires InSendOrder(idx, queue) && queue != []
    ensures InSendOrder(idx, queue[1..])
  {
  }

  lemma {:induction false} KeptInSendOrder(idx: Index, env: Env, queue: seq<Entry>, blocked: bool)
    requires InSendOrder(idx, queue)
    ensures InSendOrder(idx, Kept(env, queue, blocked))
    decreases |queue|
  {
    hide Judge;
    if queue != [] {
      var b := blocked || Judge(env, queue[0], blocked).Retry?;
      KeptInSendOrder(idx, env, queue[1..], b);
      KeptIsShorter(env, queue[1..], b);
      var rest := Kept(env, queue[1..], b);
      forall k | 0 <= k < |rest|
        ensures idx(queue[0].packet.id) <= idx(rest[k].packet.id)
      {
        assert rest[k] in queue[1..];
        var j :| 1 <= j < |queue| && queue[j] == rest[k];
      }
    }
  }

  lemma NoQueuesInSendOrder(idx: Index)
    ensures AllInSendOrder(idx, [])
  {
  }

  lemma ReceivedInSendOrder(idx: Index, d: Dec, env: Env, p: Datagram, payload: Bytes)
    requires KeysDistinct(d.buckets) && AllInSendOrder(idx, d.buckets)
    requires Narrow(idx, IdSet(QueueOf(Observed(d, env.state.generation).buckets, p.ssrc)) + {p.id})
    requires Numbers(idx, p) && forall x | x in AllEntries(d.buckets) :: Numbers(idx, x.packet)
    ensures AllInSendOrder(idx, Received(d, env, p, payload).0.buckets)
  {
    hide Deferred, AfterTry, Tried, AllDropped, AllInSendOrder, Numbers, Narrow, RejectsPlaintext, IdSet;
    NoQueuesInSendOrder(idx);
    var o := Observed(d.(ledger := Marked(d.ledger, p.id, NO_FLAGS)), env.state.generation);
    assert o.buckets == Observed(d, env.state.generation).buckets;
    var l := Marked(o.ledger, p.id, FlagsOf(o.ledger.flags, p.id).(needsInner := true, pending := false));
    var n := o.(ledger := l);
    DeferredInSendOrder(idx, n, env, p, payload, InOrder);
    if Tried(env, p, payload).Failure? {
      DeferredInSendOrder(idx, n.(ledger := AfterTry(l, env, p, payload)), env, p, payload,
                          Tried(env, p, payload).reason);
    }
  }

  lemma PoppedInSendOrder(idx: Index, d: Dec, env: Env)
    requires Tidy(d) && AllInSendOrder(idx, d.buckets)
    ensures AllInSendOrder(idx, Popped(d, env).0.buckets)
  {
    hide Popped, AllDropped, DistinctAll, KeysDistinct, KeptAll, FreedAll, AskedAll, InSendOrder, Kept;
    var o := Observed(d, env.state.generation);
    PoppedTidy(d, env);
    NoQueuesInSendOrder(idx);
    ObservedTidy(d, env.state.generation);
    forall ssrc
      ensures InSendOrder(idx, QueueOf(Popped(d, env).0.buckets, ssrc))
    {
      SsrcsAreIndependent(env, o.buckets, ssrc);
      KeptInSendOrder(idx, env, QueueOf(o.buckets, ssrc), false);
    }
  }

  lemma StepInSendOrder(idx: Index, w: World, s: Step)
    requires Orderly(w) && AllInSendOrder(idx, w.dec.buckets) && NarrowStep(idx, w, s)
    requires Numbered(idx, w) && Numbered(idx, Next(w, s))
    ensures AllInSendOrder(idx, Next(w, s).dec.buckets)
  {
    hide Received, Popped, AllDropped, Prepared, DistinctAll, KeysDistinct, AllEntries, AllIds, AllInSendOrder,
         Numbers, Narrow;
    NoQueuesInSendOrder(idx);
    match s {
      case Receive1(p, payload, user, native) =>
        EntriesAreNumbered(idx, w);
        assert Next(w, s).births[p.id].packet == p;
        ReceivedInSendOrder(idx, w.dec, EnvOf(w, user, native), p, payload);
      case Receive2(user, native) => PoppedInSendOrder(idx, w.dec, EnvOf(w, user, native));
      case RetryOnce(user, native) => PoppedInSendOrder(idx, w.dec, EnvOf(w, user, native));
      case _ =>
    }
  }

  lemma EntriesAreNumbered(idx: Index, w: World)
    requires Orderly(w) && Numbered(idx, w)
    ensures forall x | x in AllEntries(w.dec.buckets) :: Numbers(idx, x.packet)
  {
    hide AllEntries, AllIds, DistinctAll, KeysDistinct, Numbers;
    forall x | x in AllEntries(w.dec.buckets)
      ensures Numbers(idx, x.packet)
    {
      assert Known(w, x);
    }
  }

  /** Over every run in which the waiting packets of an SSRC always span less than half a round, every queue is
      in true sending order at all times, although only 16 bits are stored and the anchor changes. */
  lemma {:induction false} QueuesInSendOrder(idx: Index, conn: Connection, clock: real, steps: seq<Step>)
    requires ValidRun(Start(conn, clock), steps) && NarrowRun(idx, Start(conn, clock), steps)
    requires Numbered(idx, After(Start(conn, clock), steps))
    ensures AllInSendOrder(idx, After(Start(conn, clock), steps).dec.buckets)
    decreases |steps|
  {
    hide Next, Enabled, AllInSendOrder, Orderly, Numbers, NarrowStep;
    if steps == [] {
      NoQueuesInSendOrder(idx);
    } else {
      var n := |steps| - 1;
      var w := After(Start(conn, clock), steps[..n]);
      RunIsOrderly(conn, clock, steps[..n]);
      OffersGrow(w, steps[n]);
      QueuesInSendOrder(idx, conn, clock, steps[..n]);
      StepInSendOrder(idx, w, steps[n]);
    }
  }
}
