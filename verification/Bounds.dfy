/** How large the queues get, and how long their entries stay. */
module Bounds {
  import opened Bytes
  import opened Options
  import opened Dave
  import opened Deferral
  import opened DrainFacts
  import opened BucketFacts
  import opened Placement
  import opened Pipeline

  // ----- Sizes -----

  /** Every stored queue holds between 1 and 1024 packets, all of its SSRC. */
  ghost predicate Sized(bs: seq<Bucket>) {
    forall b | b in bs :: 1 <= |b.queue| <= 1024 && forall e | e in b.queue :: e.packet.ssrc == b.ssrc
  }

  lemma {:induction false} QueueIsSized(bs: seq<Bucket>, ssrc: nat)
    requires Sized(bs)
    ensures |QueueOf(bs, ssrc)| <= 1024 && forall e | e in QueueOf(bs, ssrc) :: e.packet.ssrc == ssrc
  {
    if bs != [] {
      assert bs[0] in bs;
      QueueIsSized(bs[1..], ssrc);
    }
  }

  lemma {:induction false} WithQueueIsSized(bs: seq<Bucket>, ssrc: nat, queue: seq<Entry>)
    requires Sized(bs) && Sized([Bucket(ssrc, queue)])
    ensures Sized(WithQueue(bs, ssrc, queue))
  {
    if bs != [] && bs[0].ssrc != ssrc {
      WithQueueIsSized(bs[1..], ssrc, queue);
    }
  }

  lemma DeferredIsSized(d: Dec, env: Env, p: Datagram, payload: Bytes, reason: Reason)
    requires Sized(d.buckets)
    ensures Sized(Deferred(d, env, p, payload, reason).buckets)
  {
    hide Enqueued, WithQueue, MaxAge, AllDropped;
    var o := Observed(d, env.state.generation);
    var waiting := QueueOf(o.buckets, p.ssrc);
    var entry := Entry(p, payload, reason, env.now, MaxAge(env));
    var queue := Enqueued(waiting, entry);
    QueueIsSized(o.buckets, p.ssrc);
    EnqueuedAdds(waiting, entry);
    var stored := if |queue| > MAX_PER_SSRC then queue[1..] else queue;
    forall e | e in stored
      ensures e.packet.ssrc == p.ssrc
    {
      assert e in EntrySet(queue);
      assert e in EntrySet(waiting) || e == entry;
    }
    WithQueueIsSized(o.buckets, p.ssrc, stored);
  }

  lemma ReceivedIsSized(d: Dec, env: Env, p: Datagram, payload: Bytes)
    requires Sized(d.buckets)
    ensures Sized(Received(d, env, p, payload).0.buckets)
  {
    hide Deferred, AfterTry, Tried, AllDropped, Sized;
    assert Sized([]) by { EmptyIsSized(); }
    var o := Observed(d.(ledger := Marked(d.ledger, p.id, NO_FLAGS)), env.state.generation);
    var l := Marked(o.ledger, p.id, FlagsOf(o.ledger.flags, p.id).(needsInner := true, pending := false));
    var n := o.(ledger := l);
    DeferredIsSized(n, env, p, payload, InOrder);
    if Tried(env, p, payload).Failure? {
      DeferredIsSized(n.(ledger := AfterTry(l, env, p, payload)), env, p, payload, Tried(env, p, payload).reason);
    }
  }

  lemma EmptyIsSized()
    ensures Sized([])
  {
  }

  lemma {:induction false} KeptIsShorter(env: Env, queue: seq<Entry>, blocked: bool)
    ensures |Kept(env, queue, blocked)| <= |queue|
    ensures forall e | e in Kept(env, queue, blocked) :: e in queue
    decreases |queue|
  {
    hide Judge;
    if queue != [] {
      KeptIsShorter(env, queue[1..], blocked || Judge(env, queue[0], blocked).Retry?);
    }
  }

  lemma {:induction false} KeptAllIsSized(env: Env, bs: seq<Bucket>)
    requires Sized(bs)
    ensures Sized(KeptAll(env, bs))
    decreases |bs|
  {
    hide Kept;
    if bs != [] {
      assert bs[0] in bs;
      KeptIsShorter(env, bs[0].queue, false);
      KeptAllIsSized(env, bs[1..]);
    }
  }

  lemma PoppedIsSized(d: Dec, env: Env)
    requires Sized(d.buckets) && Tidy(d)
    ensures Sized(Popped(d, env).0.buckets)
  {
    hide KeptAll, Popped, Sized, DistinctAll, KeysDistinct, AllDropped;
    assert Sized([]) by { EmptyIsSized(); }
    PoppedTidy(d, env);
    KeptAllIsSized(env, Observed(d, env.state.generation).buckets);
  }

  lemma StepKeepsSized(w: World, s: Step)
    requires Sized(w.dec.buckets) && Orderly(w)
    ensures Sized(Next(w, s).dec.buckets)
  {
    hide Received, Popped, AllDropped, Prepared, DistinctAll, KeysDistinct, AllEntries, AllIds, Sized;
    assert Sized([]) by { EmptyIsSized(); }
    match s {
      case Receive1(p, payload, user, native) => ReceivedIsSized(w.dec, EnvOf(w, user, native), p, payload);
      case Receive2(user, native) => PoppedIsSized(w.dec, EnvOf(w, user, native));
      case RetryOnce(user, native) => PoppedIsSized(w.dec, EnvOf(w, user, native));
      case _ =>
    }
  }

  /** Over every run, each stored queue has 1 to 1024 entries, and there is one queue for each SSRC, which
      holds packets of that SSRC only. */
  lemma {:induction false} QueuesAreBounded(conn: Connection, clock: real, steps: seq<Step>)
    requires ValidRun(Start(conn, clock), steps)
    ensures Sized(After(Start(conn, clock), steps).dec.buckets)
    ensures KeysDistinct(After(Start(conn, clock), steps).dec.buckets)
    decreases |steps|
  {
    hide Next, Enabled, Sized, KeysDistinct;
    RunIsOrderly(conn, clock, steps);
    if steps == [] {
      EmptyIsSized();
    } else {
      var n := |steps| - 1;
      QueuesAreBounded(conn, clock, steps[..n]);
      RunIsOrderly(conn, clock, steps[..n]);
      StepKeepsSized(After(Start(conn, clock), steps[..n]), steps[n]);
    }
  }

  // ----- Ages -----

  /** After any drain, every entry that is left, blocked or not, is younger than its maximum age. */
  lemma {:induction false} AllKeptAreYoung(env: Env, bs: seq<Bucket>)
    ensures forall e | e in AllEntries(KeptAll(env, bs)) :: env.now - e.queuedAt < e.maxAge
    decreases |bs|
  {
    hide Kept;
    if bs != [] {
      KeptAreYoung(env, bs[0].queue, false);
      AllKeptAreYoung(env, bs[1..]);
      var kept := Kept(env, bs[0].queue, false);
      assert ([Bucket(bs[0].ssrc, kept)] + KeptAll(env, bs[1..]))[1..] == KeptAll(env, bs[1..]);
    }
  }

  lemma DrainLeavesYoung(w: World, s: Step)
    requires Orderly(w) && ((s.Receive2? && w.phase.Holding?) || s.RetryOnce?)
    ensures forall e | e in AllEntries(Next(w, s).dec.buckets) :: w.clock - e.queuedAt < e.maxAge
  {
    hide Popped, AllEntries, KeptAll, FreedAll, AskedAll, DistinctAll, KeysDistinct, AllIds, Observed;
    var env := if s.Receive2? then EnvOf(w, s.user2, s.native2) else EnvOf(w, s.user3, s.native3);
    PoppedTidy(w.dec, env);
    AllKeptAreYoung(env, Observed(w.dec, env.state.generation).buckets);
  }

  // ----- Which maximum age -----

  /** The latest preparation in a generation. */
  function Latest(ps: seq<Preparation>, generation: nat): Option<real> {
    if ps == [] then None
    else if ps[|ps| - 1].generation == generation then Some(ps[|ps| - 1].at)
    else Latest(ps[..|ps| - 1], generation)
  }

  lemma {:induction false} NoneLater(ps: seq<Preparation>, generation: nat)
    requires forall p | p in ps :: p.generation < generation
    ensures Latest(ps, generation) == None
  {
    if ps != [] {
      assert ps[|ps| - 1] in ps;
      NoneLater(ps[..|ps| - 1], generation);
    }
  }

  /** The bridge remembers the latest preparation of its generation, and has seen every preparation. */
  ghost predicate Remembers(w: World) {
    && w.bridge.state.generation <= w.conn.generation
    && (forall p | p in w.prepared :: p.generation <= w.bridge.state.generation)
    && w.bridge.preparedAt == Latest(w.prepared, w.bridge.state.generation)
  }

  lemma RefreshRemembers(w: World)
    requires Remembers(w)
    ensures Remembers(w.(bridge := Current(w)))
    ensures Current(w).state.preparedAt == Latest(w.prepared, w.conn.generation)
  {
    if w.conn.generation != w.bridge.state.generation {
      NoneLater(w.prepared, w.conn.generation);
    }
  }

  lemma StepKeepsRemembers(w: World, s: Step)
    requires Remembers(w) && Enabled(w, s)
    ensures Remembers(Next(w, s))
  {
    hide Received, Popped, Observed, Route, Refreshed;
    RefreshRemembers(w);
    if s.EpochPrepared? && s.epoch == 1 {
      var ps := w.prepared + [Preparation(w.clock, w.conn.generation)];
      assert ps[|ps| - 1] == Preparation(w.clock, w.conn.generation);
      RefreshIsTrue(w.bridge, w.conn, w.clock);
    }
  }

  /** An entry was queued when its packet arrived. It may wait 15 seconds if the latest epoch-1 preparation of
      its generation was then less than 5 seconds ago, else 10. */
  ghost predicate Dated(w: World, e: Entry) {
    && e.packet.id in w.births
    && var b := w.births[e.packet.id];
       && e.queuedAt == b.at <= w.clock && b.preparations <= |w.prepared|
       && var latest := Latest(w.prepared[..b.preparations], b.state.generation);
          e.maxAge == if latest.Some? && b.at - latest.value < 5.0 then 15.0 else 10.0
  }

  lemma NewIsDated(w: World, s: Step, e: Entry)
    requires s.Receive1? && Remembers(w) && Enabled(w, s)
    requires NewEntry(EnvOf(w, s.user, s.native), s.packet, s.payload, e)
    ensures Dated(Next(w, s), e)
  {
    hide Received;
    RefreshRemembers(w);
    assert w.prepared[..|w.prepared|] == w.prepared;
  }

  lemma DatedLasts(w: World, s: Step, e: Entry)
    requires Dated(w, e) && Enabled(w, s)
    ensures Dated(Next(w, s), e)
  {
    hide Received, Popped, Observed, Route, Refreshed, Prepared, Latest;
    var n := w.births[e.packet.id].preparations;
    assert Next(w, s).prepared[..n] == w.prepared[..n];
  }

  /** Every entry after a step was there before, or is for the packet just received. */
  lemma EntriesComeFrom(w: World, s: Step, e: Entry)
    requires Orderly(w) && Enabled(w, s) && e in AllEntries(Next(w, s).dec.buckets)
    ensures e in AllEntries(w.dec.buckets)
            || (s.Receive1? && NewEntry(EnvOf(w, s.user, s.native), s.packet, s.payload, e))
  {
    hide Received, Popped, Observed, Prepared, AllEntries, DistinctAll, KeysDistinct, AllIds, NewEntry;
    ObservedTidy(w.dec, w.conn.generation);
    match s {
      case Receive1(p, payload, user, native) => ReceivedTidy(w.dec, EnvOf(w, user, native), p, payload);
      case Receive2(user, native) => PoppedTidy(w.dec, EnvOf(w, user, native));
      case RetryOnce(user, native) => PoppedTidy(w.dec, EnvOf(w, user, native));
      case _ =>
    }
  }

  /** Over every run: the bridge's memory is that of the latest preparation, and each entry's maximum age
      follows from the preparations before its arrival. */
  lemma {:induction false} AgesAreDue(conn: Connection, clock: real, steps: seq<Step>)
    requires ValidRun(Start(conn, clock), steps)
    ensures var w := After(Start(conn, clock), steps);
            Remembers(w) && forall e | e in AllEntries(w.dec.buckets) :: Dated(w, e)
    decreases |steps|
  {
    hide Next, Enabled, Remembers, Dated, AllEntries, Orderly;
    if steps == [] {
      StartRemembers(conn, clock);
    } else {
      var n := |steps| - 1;
      var w := After(Start(conn, clock), steps[..n]);
      AgesAreDue(conn, clock, steps[..n]);
      RunIsOrderly(conn, clock, steps[..n]);
      StepKeepsRemembers(w, steps[n]);
      forall e | e in AllEntries(Next(w, steps[n]).dec.buckets)
        ensures Dated(Next(w, steps[n]), e)
      {
        EntriesComeFrom(w, steps[n], e);
        if e in AllEntries(w.dec.buckets) {
          DatedLasts(w, steps[n], e);
        } else {
          NewIsDated(w, steps[n], e);
        }
      }
    }
  }

  lemma StartRemembers(conn: Connection, clock: real)
    ensures Remembers(Start(conn, clock)) && AllEntries(Start(conn, clock).dec.buckets) == {}
  {
  }

  // ----- A reason that is never given -----

  /** The state of a refreshed bridge. */
  predicate Coherent(s: State) {
    s.ready ==> s.version > 0
  }

  /** An entry never fails for good when it is tried: the test for plaintext comes first, on the same state. */
  lemma NeverGivesUp(env: Env, e: Entry, blocked: bool)
    requires Coherent(env.state)
    ensures !Judge(env, e, blocked).GiveUp?
  {
  }

  lemma {:induction false} QueueNeverGivesUp(l: Ledger, env: Env, queue: seq<Entry>, blocked: bool)
    requires Coherent(env.state)
    ensures QueueDrained(l, env, queue, blocked).0.counters.unrecoverable == l.counters.unrecoverable
    decreases |queue|
  {
    hide Judge, AfterTry;
    if queue != [] {
      var v := Judge(env, queue[0], blocked);
      NeverGivesUp(env, queue[0], blocked);
      TryKeepsCounters(l, env, queue[0].packet, queue[0].payload);
      QueueNeverGivesUp(Settled(l, env, queue[0], v), env, queue[1..], blocked || v.Retry?);
    }
  }

  lemma {:induction false} BucketsNeverGiveUp(l: Ledger, env: Env, bs: seq<Bucket>)
    requires Coherent(env.state)
    ensures BucketsDrained(l, env, bs).0.counters.unrecoverable == l.counters.unrecoverable
    decreases |bs|
  {
    hide QueueDrained;
    if bs != [] {
      QueueNeverGivesUp(l, env, bs[0].queue, false);
      BucketsNeverGiveUp(QueueDrained(l, env, bs[0].queue, false).0, env, bs[1..]);
    }
  }

  lemma ReceivedNeverGivesUp(d: Dec, env: Env, p: Datagram, payload: Bytes)
    ensures Received(d, env, p, payload).0.ledger.counters.unrecoverable == d.ledger.counters.unrecoverable
  {
    hide Tried, RejectsPlaintext, Calls, Enqueued, QueueOf, WithQueue, AllDropped, FlagsOf;
    AllDropCounts(Marked(d.ledger, p.id, NO_FLAGS), d.buckets);
  }

  lemma StepNeverGivesUp(w: World, s: Step)
    ensures Next(w, s).dec.ledger.counters.unrecoverable == w.dec.ledger.counters.unrecoverable
  {
    hide Received, BucketsDrained, Route, AllDropped;
    AllDropCounts(w.dec.ledger, w.dec.buckets);
    var o := Observed(w.dec, w.conn.generation);
    match s {
      case Receive1(p, payload, user, native) => ReceivedNeverGivesUp(w.dec, EnvOf(w, user, native), p, payload);
      case Receive2(user, native) => BucketsNeverGiveUp(o.ledger, EnvOf(w, user, native), o.buckets);
      case RetryOnce(user, native) => BucketsNeverGiveUp(o.ledger, EnvOf(w, user, native), o.buckets);
      case _ =>
    }
  }

  /** Over every run, no queued packet is counted as unrecoverable. */
  lemma {:induction false} NothingIsUnrecoverable(conn: Connection, clock: real, steps: seq<Step>)
    requires ValidRun(Start(conn, clock), steps)
    ensures After(Start(conn, clock), steps).dec.ledger.counters.unrecoverable == 0
    decreases |steps|
  {
    hide Next, Enabled;
    if steps != [] {
      NothingIsUnrecoverable(conn, clock, steps[..|steps| - 1]);
      StepNeverGivesUp(After(Start(conn, clock), steps[..|steps| - 1]), steps[|steps| - 1]);
    }
  }
}
