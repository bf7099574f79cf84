/** What each step adds to the counters of the decryptor. */
module Tallies {
  import opened Bytes
  import opened Options
  import opened Dave
  import opened Deferral
  import opened DrainFacts
  import opened BucketFacts
  import opened Placement
  import opened Pipeline
  import opened Bounds
  import opened Arrivals
  import DavePayload

  // ----- Draining -----

  /** How many entries are too old. */
  function TooOld(now: real, queue: seq<Entry>): nat {
    if queue == [] then 0 else (if now - queue[0].queuedAt >= queue[0].maxAge then 1 else 0) + TooOld(now, queue[1..])
  }

  /** How many entries are young and unmarked. */
  function YoungUnmarked(now: real, queue: seq<Entry>): nat {
    if queue == [] then 0 else
      var e := queue[0];
      (if now - e.queuedAt < e.maxAge && !EndsWithMarker(e.payload) then 1 else 0) + YoungUnmarked(now, queue[1..])
  }

  function AllTooOld(now: real, bs: seq<Bucket>): nat {
    if bs == [] then 0 else TooOld(now, bs[0].queue) + AllTooOld(now, bs[1..])
  }

  function AllYoungUnmarked(now: real, bs: seq<Bucket>): nat {
    if bs == [] then 0 else YoungUnmarked(now, bs[0].queue) + AllYoungUnmarked(now, bs[1..])
  }

  /** The counters after a drain that handed on `recovered` packets. */
  function Counted(c: Counters, recovered: nat, expired: nat, refused: nat): Counters {
    c.(recovered := c.recovered + recovered, expired := c.expired + expired, plaintext := c.plaintext + refused)
  }

  lemma SettledTally(l: Ledger, env: Env, e: Entry, blocked: bool)
    requires Coherent(env.state)
    ensures var v := Judge(env, e, blocked);
            var late := env.now - e.queuedAt >= e.maxAge;
            Settled(l, env, e, v).counters
            == Counted(l.counters, if v.Release? then 1 else 0, if late then 1 else 0,
                       if !late && Strict(env.state) && !EndsWithMarker(e.payload) then 1 else 0)
  {
    hide AfterTry;
    TryKeepsCounters(l, env, e.packet, e.payload);
  }

  lemma {:induction false} QueueTally(l: Ledger, env: Env, queue: seq<Entry>, blocked: bool)
    requires Coherent(env.state)
    ensures QueueDrained(l, env, queue, blocked).0.counters
         == Counted(l.counters, |Freed(env, queue, blocked)|, TooOld(env.now, queue),
                    if Strict(env.state) then YoungUnmarked(env.now, queue) else 0)
    decreases |queue|
  {
    hide Judge, Settled;
    if queue != [] {
      var v := Judge(env, queue[0], blocked);
      SettledTally(l, env, queue[0], blocked);
      QueueTally(Settled(l, env, queue[0], v), env, queue[1..], blocked || v.Retry?);
    }
  }

  lemma {:induction false} BucketsTally(l: Ledger, env: Env, bs: seq<Bucket>)
    requires Coherent(env.state)
    ensures BucketsDrained(l, env, bs).0.counters
         == Counted(l.counters, |FreedAll(env, bs)|, AllTooOld(env.now, bs),
                    if Strict(env.state) then AllYoungUnmarked(env.now, bs) else 0)
    decreases |bs|
  {
    hide QueueDrained, Freed, TooOld, YoungUnmarked;
    if bs != [] {
      QueueTally(l, env, bs[0].queue, false);
      BucketsTally(QueueDrained(l, env, bs[0].queue, false).0, env, bs[1..]);
    }
  }

  // ----- Steps -----

  /** What is lost to a new generation. */
  function LostToReset(w: World): nat {
    if w.dec.generation.Some? && w.dec.generation.value != w.conn.generation then Total(w.dec.buckets) else 0
  }

  lemma ObservedTally(d: Dec, generation: nat)
    ensures var c := d.ledger.counters;
            Observed(d, generation).ledger.counters
            == if d.generation.Some? && d.generation.value != generation
               then c.(sessionReset := c.sessionReset + Total(d.buckets)) else c
  {
    AllDropCounts(d.ledger, d.buckets);
  }

  /** A pop counts what it recovers, what has become too old, what a strict session refuses of the rest, and what is
      lost to a new generation. */
  lemma PopTally(w: World, s: Step)
    requires Orderly(w) && Enabled(w, s) && (s.Receive2? || s.RetryOnce?)
    ensures var env := if s.Receive2? then EnvOf(w, s.user2, s.native2) else EnvOf(w, s.user3, s.native3);
            var c, d := w.dec.ledger.counters, Next(w, s).dec.ledger.counters;
            var same := w.dec.generation == Some(w.conn.generation);
            && d.queued == c.queued && d.overflow == c.overflow && d.unrecoverable == c.unrecoverable
            && d.sessionReset == c.sessionReset + LostToReset(w)
            && d.recovered == c.recovered + |Popped(w.dec, env).1|
            && d.expired == c.expired + (if same then AllTooOld(w.clock, w.dec.buckets) else 0)
            && d.plaintext == c.plaintext
                              + (if same && Strict(env.state) then AllYoungUnmarked(w.clock, w.dec.buckets) else 0)
  {
    hide Observed, BucketsDrained, AllIds, AllEntries, DistinctAll, KeysDistinct, KeptAll, FreedAll, AskedAll,
         AllTooOld, AllYoungUnmarked, Refreshed, Total, Route, RoutesHeld, Known;
    var env := if s.Receive2? then EnvOf(w, s.user2, s.native2) else EnvOf(w, s.user3, s.native3);
    RefreshIsTrue(w.bridge, w.conn, w.clock);
    ObservedTally(w.dec, w.conn.generation);
    PoppedTidy(w.dec, env);
    GenerationEmpties(w.dec, w.conn.generation);
    if w.dec.generation == Some(w.conn.generation) {
      ObservedAgain(w.dec, w.conn.generation);
    }
    NothingCounts(env);
    var o := Observed(w.dec, w.conn.generation);
    BucketsTally(o.ledger, env, o.buckets);
  }

  lemma NothingCounts(env: Env)
    ensures FreedAll(env, []) == [] && AllTooOld(env.now, []) == 0 && AllYoungUnmarked(env.now, []) == 0
  {
  }

  /** An arrival counts the packet if it has to wait, one more if it is the 1025th, and what is lost to a new
      generation. */
  lemma ArrivalTally(w: World, s: Step)
    requires s.Receive1? && Orderly(w) && Enabled(w, s)
    ensures var c := w.dec.ledger.counters;
            var waits := WayOf(w, s).MadeToWait?;
            Next(w, s).dec.ledger.counters
            == c.(queued := c.queued + (if waits then 1 else 0),
                  overflow := c.overflow + (if waits && |Ahead(w, s.packet.ssrc)| >= 1024 then 1 else 0),
                  sessionReset := c.sessionReset + LostToReset(w))
  {
    hide Inner, Observed, Refreshed, DavePayload.Parse, DavePayload.Wrapped, AllIds, DistinctAll, KeysDistinct,
         AllEntries, Known, QueueOf, Total;
    var env := EnvOf(w, s.user, s.native);
    var p := s.packet;
    RefreshIsTrue(w.bridge, w.conn, w.clock);
    DavePayload.AcceptsExactlyWellFormed(s.payload);
    FreshFlags(w.dec, w.conn.generation, p);
    var m := w.dec.(ledger := Marked(w.dec.ledger, p.id, NO_FLAGS));
    ObservedTally(m, env.state.generation);
    var o := Observed(m, env.state.generation);
    if WayOf(w, s).OpenedAtOnce? || WayOf(w, s).MadeToWait? {
      var f := FlagsOf(o.ledger.flags, p.id).(needsInner := true, pending := false);
      InnerTally(w, s, o.(ledger := Marked(o.ledger, p.id, f)));
    }
  }

  lemma InnerTally(w: World, s: Step, d: Dec)
    requires s.Receive1? && d.generation == Some(w.conn.generation)
    requires d.buckets == if w.dec.generation == Some(w.conn.generation) then w.dec.buckets else []
    requires FlagsOf(d.ledger.flags, s.packet.id) == Flags(true, false, false, false, false)
    requires WayOf(w, s).OpenedAtOnce? || WayOf(w, s).MadeToWait?
    ensures var c := d.ledger.counters;
            var waits := WayOf(w, s).MadeToWait?;
            Inner(d, EnvOf(w, s.user, s.native), s.packet, s.payload).0.ledger.counters
            == c.(queued := c.queued + (if waits then 1 else 0),
                  overflow := c.overflow + (if waits && |Ahead(w, s.packet.ssrc)| >= 1024 then 1 else 0))
  {
    hide Deferred, AfterTry, Tried, Refreshed, QueueOf;
    var env := EnvOf(w, s.user, s.native);
    RefreshIsTrue(w.bridge, w.conn, w.clock);
    TryExactly(d.ledger, env, s.packet, s.payload);
    TryKeepsCounters(d.ledger, env, s.packet, s.payload);
    AheadIs(w, d, s.packet.ssrc);
    DeferredTally(d, env, s.packet, s.payload, InOrder);
    if Tried(env, s.packet, s.payload).Failure? {
      DeferredTally(d.(ledger := AfterTry(d.ledger, env, s.packet, s.payload)), env, s.packet, s.payload,
                    Tried(env, s.packet, s.payload).reason);
    }
  }

  lemma DeferredTally(d: Dec, env: Env, p: Datagram, payload: Bytes, reason: Reason)
    requires d.generation == Some(env.state.generation)
    ensures var c := d.ledger.counters;
            Deferred(d, env, p, payload, reason).ledger.counters
            == c.(queued := c.queued + 1,
                  overflow := c.overflow + (if |QueueOf(d.buckets, p.ssrc)| >= 1024 then 1 else 0))
  {
    hide Enqueued, WithQueue, QueueOf, MaxAge;
    ObservedAgain(d, env.state.generation);
  }

  /** The other steps count nothing but what is lost to a new generation. */
  lemma OtherTally(w: World, s: Step)
    requires !s.Receive1? && !s.Receive2? && !s.RetryOnce?
    ensures var c := w.dec.ledger.counters;
            Next(w, s).dec.ledger.counters
            == if s.Sync? then c.(sessionReset := c.sessionReset + LostToReset(w)) else c
  {
    hide Observed, Prepared, Total;
    ObservedTally(w.dec, w.conn.generation);
  }
}
