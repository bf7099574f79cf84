/** Where a packet is: pending, dropped, or handed on; and that its flags always say so. */
module Placement {
  import opened Bytes
  import opened Options
  import opened Dave
  import opened Deferral
  import opened DrainFacts
  import opened BucketFacts

  /** The dictionaries are well formed: no packet is queued twice, and nothing is left to be picked up. */
  ghost predicate Tidy(d: Dec) {
    && DistinctAll(d.buckets) && KeysDistinct(d.buckets) && d.ledger.ready == []
    && (d.generation.None? ==> d.buckets == [])
  }

  /** The pending flag says exactly whether the packet is queued, and a dropped packet is not. */
  ghost predicate Truthful(d: Dec, id: nat) {
    var f := FlagsOf(d.ledger.flags, id);
    (f.pending <==> id in AllIds(d.buckets)) && !(f.pending && f.dropped)
  }

  /** One for a packet that is queued or dropped. */
  function Load(d: Dec, id: nat): nat {
    var f := FlagsOf(d.ledger.flags, id);
    (if f.pending then 1 else 0) + (if f.dropped then 1 else 0)
  }

  // ----- Observing the session -----

  lemma ObservedTidy(d: Dec, generation: nat)
    requires Tidy(d)
    ensures Tidy(Observed(d, generation))
    ensures AllIds(Observed(d, generation).buckets) <= AllIds(d.buckets)
    ensures AllEntries(Observed(d, generation).buckets) <= AllEntries(d.buckets)
    ensures Observed(d, generation).ledger.offers == d.ledger.offers
  {
    AllDropCounts(d.ledger, d.buckets);
  }

  lemma ObservedPlaces(d: Dec, generation: nat, id: nat)
    requires Truthful(d, id)
    ensures var o := Observed(d, generation);
            && Truthful(o, id) && Load(o, id) == Load(d, id)
            && (id !in AllIds(d.buckets) ==> Untouched(d.ledger, o.ledger, id))
            && (id in AllIds(d.buckets) ==> SameData(d.ledger, o.ledger, id))
  {
    AllDroppedFate(d.ledger, d.buckets, id);
  }

  lemma ObservedAgain(d: Dec, generation: nat)
    requires d.generation == Some(generation)
    ensures Observed(d, generation) == d
  {
  }

  // ----- Deferring -----

  lemma {:induction false} FirstOf(queue: seq<Entry>)
    requires queue != [] && Distinct(queue)
    ensures IdSet(queue) == {queue[0].packet.id} + IdSet(queue[1..])
    ensures queue[0].packet.id !in IdSet(queue[1..]) && Distinct(queue[1..])
    ensures EntrySet(queue[1..]) <= EntrySet(queue)
  {
    assert queue == [queue[0]] + queue[1..];
    IdSetCons(queue[0], queue[1..]);
  }

  /** The queue after deferring: everyone stays and the newcomer joins, except for one on overflow. */
  lemma DeferredQueues(d: Dec, env: Env, p: Datagram, payload: Bytes, reason: Reason)
    requires Tidy(d) && d.generation == Some(env.state.generation) && p.id !in AllIds(d.buckets)
    ensures var e := Deferred(d, env, p, payload, reason);
            var entry := Entry(p, payload, reason, env.now, MaxAge(env));
            var queue := Enqueued(QueueOf(d.buckets, p.ssrc), entry);
            && Tidy(e) && e.generation == d.generation && e.ledger.offers == d.ledger.offers
            && AllEntries(e.buckets) <= AllEntries(d.buckets) + {entry}
            && AllIds(e.buckets) == (AllIds(d.buckets) + {p.id})
                                    - (if |queue| > MAX_PER_SSRC then {queue[0].packet.id} else {})
            && queue[0].packet.id in AllIds(d.buckets) + {p.id}
  {
    hide Enqueued, WithQueue, IdSet, EntrySet, Distinct, MaxAge;
    ObservedAgain(d, env.state.generation);
    var waiting := QueueOf(d.buckets, p.ssrc);
    var entry := Entry(p, payload, reason, env.now, MaxAge(env));
    var queue := Enqueued(waiting, entry);
    QueueIsInside(d.buckets, p.ssrc);
    EnqueuedAdds(waiting, entry);
    FirstOf(queue);
    var stored := if |queue| > MAX_PER_SSRC then queue[1..] else queue;
    WithQueueIds(d.buckets, p.ssrc, stored);
    WithQueueEntries(d.buckets, p.ssrc, stored);
    WithQueueKeys(d.buckets, p.ssrc, stored);
  }

  lemma DeferredPlaces(d: Dec, env: Env, p: Datagram, payload: Bytes, reason: Reason, id: nat)
    requires Tidy(d) && d.generation == Some(env.state.generation) && p.id !in AllIds(d.buckets)
    requires Truthful(d, id) && Load(d, p.id) == 0
    ensures var e := Deferred(d, env, p, payload, reason);
            && Truthful(e, id)
            && Load(e, id) == (if id == p.id then 1 else Load(d, id))
            && SameData(d.ledger, e.ledger, id)
            && (id != p.id && id !in AllIds(d.buckets) ==> Untouched(d.ledger, e.ledger, id))
  {
    hide Enqueued, WithQueue, AllIds, MaxAge;
    ObservedAgain(d, env.state.generation);
    DeferredQueues(d, env, p, payload, reason);
  }

  // ----- A fresh packet -----

  /** An entry as it is made when a packet is deferred. */
  ghost predicate NewEntry(env: Env, p: Datagram, payload: Bytes, x: Entry) {
    x.packet == p && x.payload == payload && x.queuedAt == env.now && x.maxAge == MaxAge(env)
  }

  /** Entries of `e` were in `d`, or are for the packet at hand. */
  ghost predicate Grown(d: Dec, e: Dec, env: Env, p: Datagram, payload: Bytes) {
    && AllIds(e.buckets) <= AllIds(d.buckets) + {p.id}
    && (forall x | x in AllEntries(e.buckets) :: x in AllEntries(d.buckets) || NewEntry(env, p, payload, x))
    && (e.ledger.offers == d.ledger.offers || e.ledger.offers == d.ledger.offers + Calls(env, p, payload))
  }

  lemma InnerTidy(d: Dec, env: Env, p: Datagram, payload: Bytes)
    requires Tidy(d) && d.generation == Some(env.state.generation) && p.id !in AllIds(d.buckets)
    ensures var e := Inner(d, env, p, payload).0;
            Tidy(e) && e.generation == d.generation && Grown(d, e, env, p, payload)
  {
    hide Deferred, Calls, Tried, AfterTry, AllIds, AllEntries, DistinctAll, KeysDistinct, MaxAge;
    TryKeepsCounters(d.ledger, env, p, payload);
    TryAsks(d.ledger, env, p, payload);
    var t := d.(ledger := AfterTry(d.ledger, env, p, payload));
    DeferredQueues(d, env, p, payload, InOrder);
    if Tried(env, p, payload).Failure? {
      DeferredQueues(t, env, p, payload, Tried(env, p, payload).reason);
    }
  }

  lemma TryAsks(l: Ledger, env: Env, p: Datagram, payload: Bytes)
    ensures AfterTry(l, env, p, payload).offers == l.offers + Calls(env, p, payload)
  {
  }

  /** The library is asked at most once, for the packet at hand; entries of another generation are gone. */
  lemma ReceivedTidy(d: Dec, env: Env, p: Datagram, payload: Bytes)
    requires Tidy(d) && p.id !in AllIds(d.buckets)
    ensures var e := Received(d, env, p, payload).0;
            && Tidy(e) && e.generation == Some(env.state.generation)
            && Grown(Observed(d, env.state.generation), e, env, p, payload)
  {
    hide Inner, AllIds, AllEntries, DistinctAll, KeysDistinct, Calls, AllDropped;
    var s := d.(ledger := Marked(d.ledger, p.id, NO_FLAGS));
    ObservedTidy(s, env.state.generation);
    ObservedTidy(d, env.state.generation);
    var o := Observed(s, env.state.generation);
    var n := o.(ledger := Marked(o.ledger, p.id, FlagsOf(o.ledger.flags, p.id).(needsInner := true, pending := false)));
    InnerTidy(n, env, p, payload);
  }

  /** A new session starts with empty queues. */
  lemma GenerationEmpties(d: Dec, generation: nat)
    requires Tidy(d)
    ensures d.generation != Some(generation) ==> Observed(d, generation).buckets == []
  {
  }

  lemma InnerPlaces(d: Dec, env: Env, p: Datagram, payload: Bytes, id: nat)
    requires Tidy(d) && d.generation == Some(env.state.generation) && p.id !in AllIds(d.buckets)
    requires Truthful(d, id) && Load(d, p.id) == 0
    ensures var e := Inner(d, env, p, payload).0;
            && Truthful(e, id)
            && (id != p.id ==> Load(e, id) == Load(d, id) && SameData(d.ledger, e.ledger, id))
            && (id != p.id && id !in AllIds(d.buckets) ==> Untouched(d.ledger, e.ledger, id))
            && (id == p.id ==> Load(e, id) <= 1)
  {
    hide Deferred, Calls, Tried, AllIds, DistinctAll, KeysDistinct;
    var t := d.(ledger := AfterTry(d.ledger, env, p, payload));
    TryKeepsCounters(d.ledger, env, p, payload);
    DeferredPlaces(d, env, p, payload, InOrder, id);
    if Tried(env, p, payload).Failure? {
      DeferredPlaces(t, env, p, payload, Tried(env, p, payload).reason, id);
    }
  }

  /** A fresh packet ends up queued, or dropped, or neither; for any other packet nothing changes but that
      it may lose its place in a queue. */
  lemma ReceivedPlaces(d: Dec, env: Env, p: Datagram, payload: Bytes, id: nat)
    requires Tidy(d) && p.id !in AllIds(d.buckets) && Truthful(d, id)
    ensures var e := Received(d, env, p, payload).0;
            && Truthful(e, id)
            && (id != p.id ==> Load(e, id) == Load(d, id) && SameData(d.ledger, e.ledger, id))
            && (id != p.id && id !in AllIds(d.buckets) ==> Untouched(d.ledger, e.ledger, id))
            && (id == p.id ==> Load(e, id) <= 1)
  {
    hide Inner, AllIds, DistinctAll, KeysDistinct, Observed;
    var s := d.(ledger := Marked(d.ledger, p.id, NO_FLAGS));
    var o := Observed(s, env.state.generation);
    ObservedTidy(s, env.state.generation);
    ObservedGeneration(s, env.state.generation);
    ObservedPlaces(s, env.state.generation, id);
    ObservedPlaces(s, env.state.generation, p.id);
    var n := o.(ledger := Marked(o.ledger, p.id, FlagsOf(o.ledger.flags, p.id).(needsInner := true, pending := false)));
    InnerPlaces(n, env, p, payload, id);
  }

  lemma ObservedGeneration(d: Dec, generation: nat)
    ensures Observed(d, generation).generation == Some(generation)
  {
  }

  // ----- Draining -----

  lemma PoppedTidy(d: Dec, env: Env)
    requires Tidy(d)
    ensures var (e, ready) := Popped(d, env);
            var o := Observed(d, env.state.generation);
            && Tidy(e) && e.generation == Some(env.state.generation)
            && e.buckets == KeptAll(env, o.buckets) && ready == FreedAll(env, o.buckets)
            && e.ledger.offers == d.ledger.offers + AskedAll(env, o.buckets)
            && AllIds(e.buckets) <= AllIds(d.buckets) && AllEntries(e.buckets) <= AllEntries(d.buckets)
  {
    hide AllIds, AllEntries, KeptAll, FreedAll, AskedAll, BucketsDrained, AllDropped, Keys;
    ObservedTidy(d, env.state.generation);
    var o := Observed(d, env.state.generation);
    BucketsDrainedParts(o.ledger, env, o.buckets);
    KeptAllComesFrom(env, o.buckets);
    SsrcsAreIndependent(env, o.buckets, 0);
    Chain([], FreedAll(env, o.buckets), []);
  }

  /** A packet handed on leaves its queue unharmed, once; any other packet keeps its load. */
  lemma PoppedPlaces(d: Dec, env: Env, id: nat)
    requires Tidy(d) && Truthful(d, id)
    ensures var (e, ready) := Popped(d, env);
            && Truthful(e, id)
            && Load(e, id) + Times(ready, id) == Load(d, id)
            && (id !in Ids(ready) ==> SameData(d.ledger, e.ledger, id))
            && (id in Ids(ready) ==> Load(e, id) == 0 && Times(ready, id) == 1 && id in AllIds(d.buckets)
                                     && !FlagsOf(e.ledger.flags, id).needsInner)
            && (id !in Ids(ready) ==> Times(ready, id) == 0)
            && (id !in AllIds(d.buckets) ==> Untouched(d.ledger, e.ledger, id))
  {
    hide AllIds, Ids, KeptAll, FreedAll, BucketsDrained, AllDropped, Observed;
    ObservedTidy(d, env.state.generation);
    ObservedPlaces(d, env.state.generation, id);
    PoppedTidy(d, env);
    var o := Observed(d, env.state.generation);
    BucketsFate(o.ledger, env, o.buckets, id);
    FreedAllOnce(env, o.buckets, id);
    KeptAllComesFrom(env, o.buckets);
  }

  /** The data of a packet handed on is what the library returned for it in this drain. */
  lemma PoppedData(d: Dec, env: Env, p: Datagram)
    requires Tidy(d) && p in Popped(d, env).1
    ensures var e := Popped(d, env).0;
            && p.id in e.ledger.data
            && exists o :: o in e.ledger.offers && o.id == p.id && o.result == Plain(e.ledger.data[p.id])
  {
    hide AllIds, KeptAll, FreedAll, AskedAll, BucketsDrained, AllDropped, Observed;
    ObservedTidy(d, env.state.generation);
    PoppedTidy(d, env);
    var o := Observed(d, env.state.generation);
    BucketsData(o.ledger, env, o.buckets, p);
    var m := BucketsDrained(o.ledger, env, o.buckets).0;
    var x :| x in AskedAll(env, o.buckets) && x.id == p.id && x.result == Plain(m.data[p.id]);
    assert x in Popped(d, env).0.ledger.offers;
  }

  lemma {:induction false} BucketsData(l: Ledger, env: Env, bs: seq<Bucket>, p: Datagram)
    requires DistinctAll(bs) && p in FreedAll(env, bs)
    ensures var m := BucketsDrained(l, env, bs).0;
            && p.id in m.data
            && exists o :: o in AskedAll(env, bs) && o.id == p.id && o.result == Plain(m.data[p.id])
    decreases |bs|
  {
    hide QueueDrained, Kept, Freed, Asked, Distinct, IdSet;
    var queue := bs[0].queue;
    var mid := QueueDrained(l, env, queue, false).0;
    var m := BucketsDrained(mid, env, bs[1..]).0;
    KeptAllComesFrom(env, bs[1..]);
    if p in Freed(env, queue, false) {
      QueueData(l, env, queue, false, p);
      PartsComeFrom(env, queue, false);
      IdOf(p, Freed(env, queue, false));
      BucketsFate(mid, env, bs[1..], p.id);
      var o :| o in Asked(env, queue, false) && o.id == p.id && o.result == Plain(mid.data[p.id]);
      assert o in AskedAll(env, bs);
    } else {
      assert p in FreedAll(env, bs[1..]);
      BucketsData(mid, env, bs[1..], p);
      var o :| o in AskedAll(env, bs[1..]) && o.id == p.id && o.result == Plain(m.data[p.id]);
      assert o in AskedAll(env, bs);
    }
  }

  /** Packets handed on were packets of entries. */
  lemma {:induction false} FreedAllWereEntries(env: Env, bs: seq<Bucket>, p: Datagram) returns (e: Entry)
    requires p in FreedAll(env, bs)
    ensures e in AllEntries(bs) && e.packet == p && Opened(env, e)
    decreases |bs|
  {
    hide Freed, Opened;
    if p in Freed(env, bs[0].queue, false) {
      FreedWereOpened(env, bs[0].queue, false);
      e :| e in bs[0].queue && e.packet == p && Opened(env, e);
    } else {
      e := FreedAllWereEntries(env, bs[1..], p);
    }
  }

  lemma PoppedWereEntries(d: Dec, env: Env, p: Datagram) returns (e: Entry)
    requires Tidy(d) && p in Popped(d, env).1
    ensures e in AllEntries(d.buckets) && e.packet == p && Opened(env, e)
    ensures d.generation == Some(env.state.generation)
  {
    hide Popped, Observed, AllEntries, DistinctAll, KeysDistinct, Opened;
    PoppedTidy(d, env);
    ObservedTidy(d, env.state.generation);
    GenerationEmpties(d, env.state.generation);
    e := FreedAllWereEntries(env, Observed(d, env.state.generation).buckets, p);
  }

  lemma IdOf(p: Datagram, ps: seq<Datagram>)
    requires p in ps
    ensures p.id in Ids(ps)
  {
  }
}
