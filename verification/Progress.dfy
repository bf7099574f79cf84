/** When deferring ends: what a drain needs to empty the queues. */
module Progress {
  import opened Bytes
  import opened Options
  import opened Dave
  import opened Deferral
  import opened DrainFacts
  import opened BucketFacts
  import opened Placement
  import opened Pipeline
  import opened Bounds
  import opened Rollover
  import opened Turns

  /** The packets of a queue that are due, in its order. */
  function DueOnes(env: Env, queue: seq<Entry>): seq<Datagram> {
    if queue == [] then [] else (if IsDue(env, queue[0]) then [queue[0].packet] else []) + DueOnes(env, queue[1..])
  }

  lemma VerdictOnDue(env: Env, e: Entry)
    requires Coherent(env.state)
    ensures var v := Judge(env, e, false);
            && (v.Release? <==> IsDue(env, e) && Opens(env, e))
            && (Stays(v) <==> IsDue(env, e) && !Opens(env, e)) && (Stays(v) ==> v.Retry?)
  {
  }

  /** A drain leaves nothing of a queue exactly if the library opens everything that is due; it then hands on all of
      that, in the order of the queue. */
  lemma {:induction false} QueueEmptiesExactly(env: Env, queue: seq<Entry>)
    requires Coherent(env.state)
    ensures Kept(env, queue, false) == [] <==> forall e | e in queue :: IsDue(env, e) ==> Opens(env, e)
    ensures Kept(env, queue, false) == [] ==> Freed(env, queue, false) == DueOnes(env, queue)
    decreases |queue|
  {
    hide Judge, IsDue, Opens;
    if queue != [] {
      VerdictOnDue(env, queue[0]);
      assert queue == [queue[0]] + queue[1..];
      if !Stays(Judge(env, queue[0], false)) {
        QueueEmptiesExactly(env, queue[1..]);
      } else {
        assert queue[0] in queue;
      }
    }
  }

  lemma {:induction false} BucketsEmptyExactly(env: Env, bs: seq<Bucket>)
    requires Coherent(env.state)
    ensures KeptAll(env, bs) == [] <==> forall e | e in AllEntries(bs) :: IsDue(env, e) ==> Opens(env, e)
    ensures KeptAll(env, bs) == [] ==>
              forall e | e in AllEntries(bs) && IsDue(env, e) :: e.packet.id in Ids(FreedAll(env, bs))
    decreases |bs|
  {
    hide Kept, Freed, IsDue, Opens, Ids, DueOnes;
    if bs != [] {
      var queue := bs[0].queue;
      QueueEmptiesExactly(env, queue);
      BucketsEmptyExactly(env, bs[1..]);
      IdsOfBoth(Freed(env, queue, false), FreedAll(env, bs[1..]));
      forall e | e in queue && IsDue(env, e)
        ensures e.packet.id in Ids(DueOnes(env, queue))
      {
        DueIsListed(env, queue, e);
      }
    }
  }

  lemma {:induction false} DueIsListed(env: Env, queue: seq<Entry>, e: Entry)
    requires e in queue && IsDue(env, e)
    ensures e.packet.id in Ids(DueOnes(env, queue))
  {
    hide IsDue, Ids;
    if e == queue[0] {
      IdsCons(e.packet, DueOnes(env, queue[1..]));
    } else {
      DueIsListed(env, queue[1..], e);
      IdsOfBoth(if IsDue(env, queue[0]) then [queue[0].packet] else [], DueOnes(env, queue[1..]));
    }
  }

  lemma {:induction false} DueWasQueued(env: Env, queue: seq<Entry>, p: Datagram) returns (e: Entry)
    requires p in DueOnes(env, queue)
    ensures e in queue && e.packet == p && IsDue(env, e)
  {
    hide IsDue;
    if IsDue(env, queue[0]) && p == queue[0].packet {
      e := queue[0];
    } else {
      e := DueWasQueued(env, queue[1..], p);
    }
  }

  /** In a queue in sending order, what is due is released in sending order. */
  lemma {:induction false} DueInSendOrder(idx: Index, env: Env, queue: seq<Entry>)
    requires InSendOrder(idx, queue)
    ensures var ps := DueOnes(env, queue);
            forall i, k | 0 <= i < k < |ps| :: idx(ps[i].id) <= idx(ps[k].id)
  {
    hide IsDue;
    if queue != [] {
      TailInSendOrder(idx, queue);
      DueInSendOrder(idx, env, queue[1..]);
      var rest := DueOnes(env, queue[1..]);
      forall k | 0 <= k < |rest|
        ensures idx(queue[0].packet.id) <= idx(rest[k].id)
      {
        var e := DueWasQueued(env, queue[1..], rest[k]);
        var j :| 1 <= j < |queue| && queue[j] == e;
      }
    }
  }

  /** A retry, or the second half of a callback, empties all queues if and only if the library opens every packet that
      is due; and then every one of them leaves the decryptor. */
  lemma DrainEmptiesExactly(w: World, s: Step)
    requires Orderly(w) && Enabled(w, s) && (s.Receive2? || s.RetryOnce?) && w.dec.generation == Some(w.conn.generation)
    ensures var env := if s.Receive2? then EnvOf(w, s.user2, s.native2) else EnvOf(w, s.user3, s.native3);
            && (Next(w, s).dec.buckets == [] <==>
                  forall e | e in AllEntries(w.dec.buckets) :: IsDue(env, e) ==> Opens(env, e))
            && (Next(w, s).dec.buckets == [] ==>
                  forall e | e in AllEntries(w.dec.buckets) && IsDue(env, e) ::
                    e.packet.id in RoutedIds(Released(Next(w, s))))
  {
    hide Popped, AllEntries, AllIds, DistinctAll, KeysDistinct, KeptAll, FreedAll, AskedAll, Route, Released, IsDue,
         Opens, Ids, RoutedIds, RoutesHeld;
    var env := if s.Receive2? then EnvOf(w, s.user2, s.native2) else EnvOf(w, s.user3, s.native3);
    var (d, ready) := Popped(w.dec, env);
    PoppedTidy(w.dec, env);
    ObservedAgain(w.dec, w.conn.generation);
    BucketsEmptyExactly(env, w.dec.buckets);
    var held := if s.Receive2? && RoutesHeld(d, ready, w.phase.packet) then [w.phase.packet] else [];
    ReleasedByPop(w, s, env, ready + held);
    RouteNames(ready + held, d.ledger.data);
    RoutedIdsOfBoth(Released(w), Route(ready + held, d.ledger.data));
    NamedOfBoth(ready, held);
    forall id | id in Ids(ready)
      ensures id in RoutedIds(Released(Next(w, s)))
    {
      NamedIds(ready, id);
    }
  }

  // ----- What becomes of each entry -----

  /** An entry that blocks its queue: due, but the library does not open it. */
  predicate Stuck(env: Env, e: Entry) {
    IsDue(env, e) && !Opens(env, e)
  }

  /** An entry stays exactly if it is due, and it or one ahead of it is stuck; it is released exactly if it is due and
      none is stuck up to it. */
  lemma {:induction false} EntryFate(env: Env, queue: seq<Entry>, blocked: bool, i: nat)
    requires Coherent(env.state) && Distinct(queue) && i < |queue|
    ensures var id := queue[i].packet.id;
            var free := !blocked && forall k | 0 <= k <= i :: !Stuck(env, queue[k]);
            && (id in IdSet(Kept(env, queue, blocked)) <==> IsDue(env, queue[i]) && !free)
            && (id in Ids(Freed(env, queue, blocked)) <==> IsDue(env, queue[i]) && free)
    decreases |queue|
  {
    hide Judge, IsDue, Stuck, IdSet, Ids;
    var e, rest := queue[0], queue[1..];
    var v := Judge(env, e, blocked);
    var b := blocked || v.Retry?;
    VerdictMeans(env, e, blocked);
    Nothing();
    assert queue == [e] + rest;
    IdSetCons(e, rest);
    IdSetCons(e, Kept(env, rest, b));
    IdsCons(e.packet, Freed(env, rest, b));
    PartsComeFrom(env, rest, b);
    if i > 0 {
      EntryFate(env, rest, b, i - 1);
      EntryIn(rest, i - 1);
      assert rest[i - 1] == queue[i];
      assert (forall k | 0 <= k <= i :: !Stuck(env, queue[k])) <==>
             !Stuck(env, e) && forall k | 0 <= k <= i - 1 :: !Stuck(env, rest[k]) by {
        assert forall k | 1 <= k <= i :: queue[k] == rest[k - 1];
        assert forall k | 0 <= k <= i - 1 :: rest[k] == queue[k + 1];
      }
    }
  }

  lemma EntryIn(queue: seq<Entry>, i: nat)
    requires i < |queue|
    ensures queue[i].packet.id in IdSet(queue)
  {
  }

  lemma VerdictMeans(env: Env, e: Entry, blocked: bool)
    requires Coherent(env.state)
    ensures var v := Judge(env, e, blocked);
            && (v.Release? <==> IsDue(env, e) && !blocked && !Stuck(env, e))
            && (Stays(v) <==> IsDue(env, e) && (blocked || Stuck(env, e)))
            && (v.Retry? <==> !blocked && Stuck(env, e))
  {
  }

  /** What a drain does to a waiting packet depends on the queue of its SSRC. */
  lemma {:induction false} FateInQueue(env: Env, bs: seq<Bucket>, ssrc: nat, id: nat)
    requires DistinctAll(bs) && KeysDistinct(bs) && id in IdSet(QueueOf(bs, ssrc))
    ensures id in AllIds(bs)
    ensures id in AllIds(KeptAll(env, bs)) <==> id in IdSet(Kept(env, QueueOf(bs, ssrc), false))
    ensures id in Ids(FreedAll(env, bs)) <==> id in Ids(Freed(env, QueueOf(bs, ssrc), false))
    decreases |bs|
  {
    hide Kept, Freed, IdSet, Ids, Distinct, Keys;
    Nothing();
    if bs != [] {
      var queue := bs[0].queue;
      var kept := Kept(env, queue, false);
      QueueIsInside(bs[1..], ssrc);
      PartsComeFrom(env, queue, false);
      KeptAllComesFrom(env, bs[1..]);
      IdsOfBoth(Freed(env, queue, false), FreedAll(env, bs[1..]));
      assert ([Bucket(bs[0].ssrc, kept)] + KeptAll(env, bs[1..]))[1..] == KeptAll(env, bs[1..]);
      if bs[0].ssrc != ssrc {
        FateInQueue(env, bs[1..], ssrc, id);
      }
    }
  }

  /** Within a generation, a pop drops a waiting packet exactly if it is too old, or unmarked in a strict session; it
      lets out exactly those others up to which the library opens everything else of the queue; the rest stays. */
  lemma PopExactly(w: World, s: Step, ssrc: nat, i: nat)
    requires Orderly(w) && Enabled(w, s) && (s.Receive2? || s.RetryOnce?) && w.dec.generation == Some(w.conn.generation)
    requires i < |QueueOf(w.dec.buckets, ssrc)| && InOnePlace(w, QueueOf(w.dec.buckets, ssrc)[i].packet.id)
    ensures var env := if s.Receive2? then EnvOf(w, s.user2, s.native2) else EnvOf(w, s.user3, s.native3);
            var queue, v := QueueOf(w.dec.buckets, ssrc), Next(w, s);
            var e := queue[i];
            var gone := w.clock - e.queuedAt >= e.maxAge || (Strict(env.state) && !EndsWithMarker(e.payload));
            var free := forall k | 0 <= k <= i :: IsDue(env, queue[k]) ==> Opens(env, queue[k]);
            var f := FlagsOf(v.dec.ledger.flags, e.packet.id);
            && (f.dropped <==> gone)
            && (e.packet.id in RoutedIds(Released(v)) <==> !gone && free)
            && (e.packet.id in AllIds(v.dec.buckets) <==> !gone && !free)
            && (f.pending <==> !gone && !free)
  {
    hide Popped, AllEntries, AllIds, DistinctAll, KeysDistinct, KeptAll, FreedAll, AskedAll, Route, Released,
         Opens, Ids, RoutedIds, QueueOf, IdSet, TimesRouted, Times, Stuck, Known;
    var env := if s.Receive2? then EnvOf(w, s.user2, s.native2) else EnvOf(w, s.user3, s.native3);
    var queue := QueueOf(w.dec.buckets, ssrc);
    var id := queue[i].packet.id;
    QueueIsInside(w.dec.buckets, ssrc);
    EntryIn(queue, i);
    EntryFate(env, queue, false, i);
    FateInQueue(env, w.dec.buckets, ssrc, id);
    FreeMeans(env, queue, i);
    PoppedTidy(w.dec, env);
    ObservedAgain(w.dec, w.conn.generation);
    PoppedPlaces(w.dec, env, id);
    PopReleases(w, s, env, id);
  }

  lemma FreeMeans(env: Env, queue: seq<Entry>, i: nat)
    requires i < |queue|
    ensures (forall k | 0 <= k <= i :: !Stuck(env, queue[k]))
       <==> (forall k | 0 <= k <= i :: IsDue(env, queue[k]) ==> Opens(env, queue[k]))
  {
    hide IsDue, Opens;
    if forall k | 0 <= k <= i :: !Stuck(env, queue[k]) {
      forall k | 0 <= k <= i
        ensures IsDue(env, queue[k]) ==> Opens(env, queue[k])
      {
        assert !Stuck(env, queue[k]);
      }
    }
  }

  /** A packet that was waiting leaves the decryptor exactly if it is among the recovered ones. */
  lemma PopReleases(w: World, s: Step, env: Env, id: nat)
    requires Orderly(w) && Enabled(w, s) && (s.Receive2? || s.RetryOnce?)
    requires env == if s.Receive2? then EnvOf(w, s.user2, s.native2) else EnvOf(w, s.user3, s.native3)
    requires id in AllIds(w.dec.buckets) && InOnePlace(w, id)
    ensures id in RoutedIds(Released(Next(w, s))) <==> id in Ids(Popped(w.dec, env).1)
  {
    hide Popped, AllIds, Tidy, Ids, Route, Known, AllEntries, Released, RoutedIds, TimesRouted;
    var (d, ready) := Popped(w.dec, env);
    var held := if s.Receive2? && RoutesHeld(d, ready, w.phase.packet) then [w.phase.packet] else [];
    ReleasedByPop(w, s, env, ready + held);
    RouteNames(ready + held, d.ledger.data);
    RoutedIdsOfBoth(Released(w), Route(ready + held, d.ledger.data));
    NamedOfBoth(ready, held);
    NamedIds(ready, id);
    HeldNames(held);
    RoutedIdsCount(Released(w), id);
    PoppedPlaces(w.dec, env, id);
    if s.Receive2? {
      HeldIsReady(w, env);
    }
  }

  // ----- With which data -----

  lemma {:induction false} AskedAnswers(env: Env, queue: seq<Entry>, blocked: bool)
    ensures forall o | o in Asked(env, queue, blocked) :: o.result == env.native(o.id)
    decreases |queue|
  {
    hide Judge;
    if queue != [] {
      AskedAnswers(env, queue[1..], blocked || Judge(env, queue[0], blocked).Retry?);
    }
  }

  lemma {:induction false} AllAskedAnswers(env: Env, bs: seq<Bucket>)
    ensures forall o | o in AskedAll(env, bs) :: o.result == env.native(o.id)
    decreases |bs|
  {
    hide Asked;
    if bs != [] {
      AskedAnswers(env, bs[0].queue, false);
      AllAskedAnswers(env, bs[1..]);
    }
  }

  lemma PoppedAnswers(d: Dec, env: Env, p: Datagram)
    requires Tidy(d) && p in Popped(d, env).1
    ensures var m := Popped(d, env).0.ledger.data;
            p.id in m && env.native(p.id) == Plain(m[p.id])
  {
    hide AllIds, KeptAll, FreedAll, AskedAll, BucketsDrained, AllDropped, Observed;
    ObservedTidy(d, env.state.generation);
    PoppedTidy(d, env);
    var o := Observed(d, env.state.generation);
    BucketsData(o.ledger, env, o.buckets, p);
    AllAskedAnswers(env, o.buckets);
  }

  lemma {:induction false} RouteHas(ps: seq<Datagram>, data: map<nat, Bytes>, p: Datagram)
    requires p in ps && p.id in data
    ensures Routed(p, data[p.id]) in Route(ps, data)
  {
    if p != ps[0] {
      RouteHas(ps[1..], data, p);
    }
  }

  /** A waiting packet that a pop lets out carries what the library returned for it in that pop. */
  lemma PopGives(w: World, s: Step, e: Entry)
    requires Orderly(w) && Enabled(w, s) && (s.Receive2? || s.RetryOnce?)
    requires e in AllEntries(w.dec.buckets) && e.packet.id in AllIds(w.dec.buckets) && InOnePlace(w, e.packet.id)
    requires e.packet.id in RoutedIds(Released(Next(w, s)))
    ensures var answer := if s.Receive2? then s.native2(e.packet.id) else s.native3(e.packet.id);
            answer.Plain? && Routed(e.packet, answer.data) in Released(Next(w, s))
  {
    hide Popped, AllIds, Tidy, Ids, Route, AllEntries, Released, RoutedIds, TimesRouted, Truthful;
    var env := if s.Receive2? then EnvOf(w, s.user2, s.native2) else EnvOf(w, s.user3, s.native3);
    var (d, ready) := Popped(w.dec, env);
    var held := if s.Receive2? && RoutesHeld(d, ready, w.phase.packet) then [w.phase.packet] else [];
    PopReleases(w, s, env, e.packet.id);
    var q := PacketOf(ready, e.packet.id);
    var x := PoppedWereEntries(w.dec, env, q);
    assert Known(w, x) && Known(w, e) && q == e.packet;
    PoppedAnswers(w.dec, env, q);
    RouteHas(ready + held, d.ledger.data, q);
    ReleasedByPop(w, s, env, ready + held);
  }

  lemma PacketOf(ps: seq<Datagram>, id: nat) returns (p: Datagram)
    requires id in Ids(ps)
    ensures p in ps && p.id == id
  {
    p :| p in ps && p.id == id;
  }

  // ----- What the library is asked -----

  predicate AskedFor(offers: seq<Offer>, id: nat) {
    exists o :: o in offers && o.id == id
  }

  lemma AskedForBoth(a: seq<Offer>, b: seq<Offer>, id: nat)
    ensures AskedFor(a + b, id) <==> AskedFor(a, id) || AskedFor(b, id)
  {
    if o :| o in a && o.id == id {
      assert o in a + b;
    }
    if o :| o in b && o.id == id {
      assert o in a + b;
    }
  }

  lemma {:induction false} AskedComesFrom(env: Env, queue: seq<Entry>, blocked: bool, id: nat)
    ensures AskedFor(Asked(env, queue, blocked), id) ==> id in IdSet(queue)
    decreases |queue|
  {
    if o :| o in Asked(env, queue, blocked) && o.id == id {
      var e := AskedForEntries(env, queue, blocked, o);
    }
  }

  /** A drain asks the library about an entry exactly if it is due, none ahead of it is stuck, its sender is known and
      the session is ready. */
  lemma {:induction false} AskedExactly(env: Env, queue: seq<Entry>, blocked: bool, i: nat)
    requires Coherent(env.state) && Distinct(queue) && i < |queue|
    ensures AskedFor(Asked(env, queue, blocked), queue[i].packet.id)
       <==> !blocked && IsDue(env, queue[i]) && (forall k | 0 <= k < i :: !Stuck(env, queue[k]))
            && env.user(queue[i].packet.id).Some? && env.state.ready
    decreases |queue|
  {
    hide Judge, Stuck, IdSet, AskedFor, Calls, IsDue;
    var e, rest, id := queue[0], queue[1..], queue[i].packet.id;
    var v := Judge(env, e, blocked);
    var b := blocked || v.Retry?;
    VerdictMeans(env, e, blocked);
    var asked := if v.Retry? || v.GiveUp? || v.Release? then Calls(env, e.packet, e.payload) else [];
    AskedForBoth(asked, Asked(env, rest, b), id);
    CallsExactly(env, e, blocked, id);
    AskedComesFrom(env, rest, b, e.packet.id);
    DistinctSplits(queue);
    if i > 0 {
      AskedExactly(env, rest, b, i - 1);
      EntryIn(rest, i - 1);
      assert rest[i - 1] == queue[i];
      assert (forall k | 0 <= k < i :: !Stuck(env, queue[k])) <==>
             !Stuck(env, e) && forall k | 0 <= k < i - 1 :: !Stuck(env, rest[k]) by {
        assert forall k | 1 <= k < i :: queue[k] == rest[k - 1];
        assert forall k | 0 <= k < i - 1 :: rest[k] == queue[k + 1];
      }
    }
  }

  lemma CallsExactly(env: Env, e: Entry, blocked: bool, id: nat)
    requires Coherent(env.state)
    ensures var v := Judge(env, e, blocked);
            AskedFor(if v.Retry? || v.GiveUp? || v.Release? then Calls(env, e.packet, e.payload) else [], id)
            <==> id == e.packet.id && !blocked && IsDue(env, e) && env.user(e.packet.id).Some? && env.state.ready
  {
    var offer := Offer(e.packet.id, env.state.generation, e.payload, env.native(e.packet.id));
    assert [offer][0] == offer;
    assert Calls(env, e.packet, e.payload) in {[], [offer]};
  }
}
