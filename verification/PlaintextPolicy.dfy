/** Which unmarked payloads can reach the router while an encrypted session insists on marked ones. */
module PlaintextPolicy {
  import opened Bytes
  import opened Options
  import opened Dave
  import opened Deferral
  import opened DrainFacts
  import opened BucketFacts
  import opened Placement
  import opened Pipeline

  predicate Unmarked(w: World, id: nat) {
    id in w.births && !EndsWithMarker(w.births[id].payload)
  }

  /** Whether `s` lets the packet out of the decryptor. */
  predicate ReleasedBy(w: World, s: Step, id: nat) {
    TimesRouted(Released(Next(w, s)), id) > TimesRouted(Released(w), id)
  }

  /** Whether `s` hands the packet to the router. */
  predicate RoutedBy(w: World, s: Step, id: nat) {
    TimesRouted(Next(w, s).routed, id) > TimesRouted(w.routed, id)
  }

  /** A strict drain hands on marked payloads only. */
  lemma StrictDrainIsMarked(w: World, env: Env, id: nat)
    requires Orderly(w) && Strict(env.state) && id in Ids(Popped(w.dec, env).1)
    ensures !Unmarked(w, id)
  {
    hide Popped, AllEntries, AllIds, DistinctAll, KeysDistinct;
    var p :| p in Popped(w.dec, env).1 && p.id == id;
    var e := PoppedWereEntries(w.dec, env, p);
    assert Known(w, e);
  }

  /** In a strict session the one unmarked packet a step can let out of the decryptor is the packet in hand at the
      second half of a callback: it was accepted in the first half, before the session became strict. The step
      lets it out exactly then. */
  lemma StrictSteps(w: World, s: Step, id: nat)
    requires Orderly(w) && Enabled(w, s) && InOnePlace(w, id)
    requires Strict(Current(w).state) && Unmarked(w, id)
    ensures ReleasedBy(w, s, id) <==> s.Receive2? && InHand(w, id)
  {
    hide Popped, Received, Observed, Prepared, AllEntries, AllIds, DistinctAll, KeysDistinct, Ids, Truthful, Strict,
         Released, Route;
    if s.Receive2? || s.RetryOnce? {
      var env := if s.Receive2? then EnvOf(w, s.user2, s.native2) else EnvOf(w, s.user3, s.native3);
      var (d, ready) := Popped(w.dec, env);
      var held := if s.Receive2? && RoutesHeld(d, ready, w.phase.packet) then [w.phase.packet] else [];
      ReleasedByPop(w, s, env, ready + held);
      TimesOfBoth(ready, held, id);
      TimesRoute(ready + held, d.ledger.data, id);
      TimesRoutedBoth(Released(w), Route(ready + held, d.ledger.data), id);
      assert held != [] ==> held[1..] == [];
      PoppedPlaces(w.dec, env, id);
      if id in Ids(ready) {
        StrictDrainIsMarked(w, env, id);
      }
      if s.Receive2? {
        HeldIsReady(w, env);
      }
    } else {
      ReleasedStays(w, s);
    }
  }

  /** In any session, a packet is handed to the router when it is next among those let out before. */
  lemma RoutedWhenNext(w: World, s: Step, id: nat)
    requires Enabled(w, s)
    ensures RoutedBy(w, s, id) <==> s.RouteOne? && Rest(w)[0].packet.id == id
  {
    hide Popped, Received, Observed, Prepared, Refreshed;
    if s.RouteOne? {
      TimesRoutedBoth(w.routed, [Rest(w)[0]], id);
      assert [Rest(w)[0]][1..] == [];
    }
  }

  /** A fresh unmarked packet is dropped on the spot by a strict session. */
  lemma StrictRejects(d: Dec, env: Env, p: Datagram, payload: Bytes)
    requires Strict(env.state) && !EndsWithMarker(payload)
    ensures var (e, result) := Received(d, env, p, payload);
            FlagsOf(e.ledger.flags, p.id).dropped && result == []
  {
    hide Observed;
  }

  /** A packet that arrived unmarked in a strict session is dropped for good. */
  ghost predicate Refused(w: World, id: nat) {
    id in w.births && Strict(w.births[id].state) && Unmarked(w, id) ==> FlagsOf(w.dec.ledger.flags, id).dropped
  }

  lemma StepKeepsRefused(w: World, s: Step, id: nat)
    requires Orderly(w) && Enabled(w, s) && InOnePlace(w, id) && Refused(w, id)
    ensures Refused(Next(w, s), id)
  {
    hide Popped, Received, Observed, Prepared, AllEntries, AllIds, DistinctAll, KeysDistinct, Strict;
    if id in w.births {
      OffersGrow(w, s);
      if FlagsOf(w.dec.ledger.flags, id).dropped {
        DroppedStaysDropped(w, s, id);
      }
    } else if s.Receive1? && s.packet.id == id {
      if Strict(Current(w).state) && !EndsWithMarker(s.payload) {
        StrictRejects(w.dec, EnvOf(w, s.user, s.native), s.packet, s.payload);
      }
    }
  }

  /** Over every run, a packet that arrived unmarked in a strict session is never released, let alone routed. */
  lemma {:induction false} StrictArrivalsAreNeverRouted(conn: Connection, clock: real, steps: seq<Step>, id: nat)
    requires ValidRun(Start(conn, clock), steps)
    ensures var w := After(Start(conn, clock), steps);
            && Refused(w, id)
            && (id in w.births && Strict(w.births[id].state) && Unmarked(w, id) ==> TimesRouted(Released(w), id) == 0)
    decreases |steps|
  {
    hide Next, Enabled, Orderly, Strict;
    RunIsOrderly(conn, clock, steps);
    assert InOnePlace(After(Start(conn, clock), steps), id);
    if steps != [] {
      var n := |steps| - 1;
      StrictArrivalsAreNeverRouted(conn, clock, steps[..n], id);
      RunIsOrderly(conn, clock, steps[..n]);
      StepKeepsRefused(After(Start(conn, clock), steps[..n]), steps[n], id);
    }
  }

  // ----- While a session stays strict -----

  /** The packet in hand was in hand, or has just arrived. */
  lemma InHandBefore(w: World, s: Step, id: nat)
    requires Orderly(w) && Enabled(w, s) && InOnePlace(w, id) && InHand(Next(w, s), id)
    ensures (s.Receive1? && s.packet.id == id) || InHand(w, id)
  {
    hide Popped, Received, Observed, Prepared, AllEntries, AllIds, DistinctAll, KeysDistinct;
    if s.Sync? {
      ObservedPlaces(w.dec, w.conn.generation, id);
    }
  }

  lemma StrictStepKeepsIn(w: World, s: Step, id: nat)
    requires Orderly(w) && Enabled(w, s) && InOnePlace(w, id) && InOnePlace(Next(w, s), id) && !InHand(w, id)
    requires Strict(Current(w).state) && (id in Next(w, s).births ==> Unmarked(Next(w, s), id))
    ensures !InHand(Next(w, s), id)
    ensures TimesRouted(Released(Next(w, s)), id) == TimesRouted(Released(w), id)
  {
    hide Next, Orderly, Strict, Released, Truthful;
    OffersGrow(w, s);
    if s.Receive1? && s.packet.id == id {
      ReleasedStays(w, s);
      ArrivesRefused(w, s);
    } else {
      if InHand(Next(w, s), id) {
        InHandBefore(w, s, id);
      }
      ReleasedGrows(w, s, id);
      if id in w.births {
        StrictSteps(w, s, id);
      } else {
        StaysUnborn(w, s, id);
      }
    }
  }

  lemma ArrivesRefused(w: World, s: Step)
    requires s.Receive1? && Enabled(w, s) && Strict(Current(w).state)
    requires s.packet.id in Next(w, s).births ==> Unmarked(Next(w, s), s.packet.id)
    ensures !InHand(Next(w, s), s.packet.id)
  {
    hide Received, Strict;
    StrictRejects(w.dec, EnvOf(w, s.user, s.native), s.packet, s.payload);
  }

  lemma StaysUnborn(w: World, s: Step, id: nat)
    requires id !in w.births && !(s.Receive1? && s.packet.id == id)
    ensures id !in Next(w, s).births
  {
    hide Popped, Received, Observed, Prepared, Route;
  }

  lemma ReleasedGrows(w: World, s: Step, id: nat)
    requires Enabled(w, s)
    ensures TimesRouted(Released(w), id) <= TimesRouted(Released(Next(w, s)), id)
  {
    hide Next, Released;
    var more := MoreReleased(w, s);
    TimesRoutedBoth(Released(w), more, id);
  }

  /** From step `m` on the session is strict. */
  ghost predicate StrictFrom(w: World, steps: seq<Step>, m: nat)
    decreases |steps|
  {
    |steps| <= m || (StrictFrom(w, steps[..|steps| - 1], m) && Strict(Current(After(w, steps[..|steps| - 1])).state))
  }

  /** Over every run: while a session stays strict, no unmarked packet leaves the decryptor but one that was in
      hand when it became strict. */
  lemma {:induction false} StrictStretch(conn: Connection, clock: real, steps: seq<Step>, m: nat, id: nat)
    requires ValidRun(Start(conn, clock), steps) && m <= |steps| && StrictFrom(Start(conn, clock), steps, m)
    requires var w := After(Start(conn, clock), steps); id in w.births ==> Unmarked(w, id)
    requires !InHand(After(Start(conn, clock), steps[..m]), id)
    ensures var v, w := After(Start(conn, clock), steps[..m]), After(Start(conn, clock), steps);
            !InHand(w, id) && TimesRouted(Released(w), id) == TimesRouted(Released(v), id)
    decreases |steps|
  {
    hide Next, Enabled, Orderly, InOnePlace, Strict, Released, InHand;
    RunIsOrderly(conn, clock, steps);
    if m == |steps| {
      assert steps[..m] == steps;
    } else {
      var n := |steps| - 1;
      var w := After(Start(conn, clock), steps[..n]);
      assert steps[..n][..m] == steps[..m];
      RunIsOrderly(conn, clock, steps[..n]);
      OffersGrow(w, steps[n]);
      StrictStretch(conn, clock, steps[..n], m, id);
      StrictStepKeepsIn(w, steps[n], id);
    }
  }

  /** So an unmarked packet routed in that time was in hand, or had been popped, when the session became strict. */
  lemma StrictRoutesOnlyEarlier(conn: Connection, clock: real, steps: seq<Step>, m: nat, id: nat)
    requires ValidRun(Start(conn, clock), steps) && m <= |steps| && StrictFrom(Start(conn, clock), steps, m)
    requires var w := After(Start(conn, clock), steps); id in w.births ==> Unmarked(w, id)
    requires TimesRouted(After(Start(conn, clock), steps).routed, id)
             > TimesRouted(After(Start(conn, clock), steps[..m]).routed, id)
    ensures var v := After(Start(conn, clock), steps[..m]); InHand(v, id) || TimesRouted(Rest(v), id) > 0
  {
    hide ValidRun, After, StrictFrom, Unmarked, InHand, Rest;
    var v, w := After(Start(conn, clock), steps[..m]), After(Start(conn, clock), steps);
    TimesRoutedBoth(v.routed, Rest(v), id);
    TimesRoutedBoth(w.routed, Rest(w), id);
    if !InHand(v, id) {
      StrictStretch(conn, clock, steps, m, id);
    }
  }

  // ----- Both ways happen -----

  const CALM: Connection := Connection(None, 0, 0, map[], false)
  const SECURE: Connection := Connection(Some(Session(1, 1, 0, true)), 1, 1, map[], false)
  const DOWNGRADED: Connection := SECURE.(downgraded := true)

  function Nobody(id: nat): Option<nat> {
    None
  }

  function Silent(id: nat): Native {
    RaisesValue
  }

  function Somebody(id: nat): Option<nat> {
    Some(1)
  }

  function Opening(id: nat): Native {
    Plain([9])
  }

  lemma TwoSteps(w: World, a: Step, b: Step)
    requires Enabled(w, a) && Enabled(Next(w, a), b)
    ensures ValidRun(w, [a]) && ValidRun(w, [a, b])
    ensures After(w, [a]) == Next(w, a) && After(w, [a, b]) == Next(Next(w, a), b)
  {
    assert [a][..0] == [] && [a, b][..1] == [a];
  }

  /** A run in which a strict session lets an unmarked packet out and routes it: the session becomes strict between
      the two halves of the callback. */
  lemma UnmarkedCanSlipThrough(p: Datagram)
    ensures var steps := [Receive1(p, [1], Nobody, Silent), SessionChange(SECURE)];
            var s := Receive2(Nobody, Silent);
            var w := After(Start(CALM, 0.0), steps);
            && ValidRun(Start(CALM, 0.0), steps) && Enabled(w, s) && Enabled(Next(w, s), RouteOne)
            && Strict(Current(w).state) && Unmarked(w, p.id)
            && ReleasedBy(w, s, p.id) && RoutedBy(Next(w, s), RouteOne, p.id)
  {
    hide Popped;
    var start := Start(CALM, 0.0);
    var a, b, s := Receive1(p, [1], Nobody, Silent), SessionChange(SECURE), Receive2(Nobody, Silent);
    PassesThrough(start, a);
    TwoSteps(start, a, b);
    var w := Next(Next(start, a), b);
    StartIsOrderly(CALM, 0.0);
    StepKeepsOrderly(start, a);
    StepKeepsPlace(start, a, p.id);
    StepKeepsOrderly(Next(start, a), b);
    StepKeepsPlace(Next(start, a), b, p.id);
    StrictSteps(w, s, p.id);
    OnlyOneIsRouted(w, s, p.id);
  }

  /** With empty queues a callback only routes the packet in hand. */
  lemma OnlyOneIsRouted(w: World, s: Step, id: nat)
    requires s.Receive2? && Enabled(w, s) && Orderly(w) && InHand(w, id) && w.dec.buckets == []
    requires ReleasedBy(w, s, id)
    ensures Enabled(Next(w, s), RouteOne) && RoutedBy(Next(w, s), RouteOne, id)
  {
    hide Popped, Orderly, InHand, AllIds, AllEntries, DistinctAll, KeysDistinct, AskedAll, RoutesHeld;
    var env := EnvOf(w, s.user2, s.native2);
    var (d, ready) := Popped(w.dec, env);
    assert ready == [] by { NothingToPop(w, env); }
    var out := if RoutesHeld(d, ready, w.phase.packet) then [w.phase.packet] else [];
    assert ready + out == out;
    ReleasedByPop(w, s, env, out);
    assert w.phase.packet.id == id by { HandIsPhase(w, id); }
    TimesRoutedBoth(Released(w), Route(out, d.ledger.data), id);
    assert out == [w.phase.packet] && out[1..] == [];
    RoutedWhenNext(Next(w, s), RouteOne, id);
  }

  lemma HandIsPhase(w: World, id: nat)
    requires InHand(w, id)
    ensures w.phase.Holding? && w.phase.packet.id == id
  {
  }

  lemma NothingToPop(w: World, env: Env)
    requires Orderly(w) && w.dec.buckets == []
    ensures Popped(w.dec, env).1 == []
  {
    hide Popped, AllDropped, AllIds, AllEntries, DistinctAll, KeysDistinct;
    PoppedTidy(w.dec, env);
  }

  lemma PassesThrough(w: World, s: Step)
    requires s.Receive1? && w == Start(CALM, 0.0) && s.payload == [1]
    ensures InHand(Next(w, s), s.packet.id) && Next(w, s).dec.buckets == []
  {
  }

  /** A run in which an unmarked packet, accepted under a downgrade and opened by the library, is popped before and
      routed after the session becomes strict. */
  lemma UnmarkedCanComeLate(p: Datagram)
    ensures var steps := [Receive1(p, [1], Nobody, Silent), Receive2(Somebody, Opening)];
            var start := Start(DOWNGRADED, 0.0);
            var w := Next(After(start, steps), SessionChange(SECURE));
            && ValidRun(start, steps) && Enabled(After(start, steps), SessionChange(SECURE))
            && Strict(Current(w).state) && Unmarked(w, p.id)
            && Enabled(w, RouteOne) && RoutedBy(w, RouteOne, p.id)
  {
    hide Received, Popped;
    var start := Start(DOWNGRADED, 0.0);
    var a, b := Receive1(p, [1], Nobody, Silent), Receive2(Somebody, Opening);
    DowngradedWaits(start, a);
    TwoSteps(start, a, b);
    DowngradedOpens(Next(start, a), b, p);
    var w := Next(Next(Next(start, a), b), SessionChange(SECURE));
    RoutedWhenNext(w, RouteOne, p.id);
  }

  /** Before anything else has happened, a packet of an unknown sender is queued. */
  lemma DowngradedWaits(w: World, s: Step)
    requires s.Receive1? && w == Start(DOWNGRADED, 0.0) && s.payload == [1] && s.user == Nobody
    ensures Next(w, s).dec.buckets == [Bucket(s.packet.ssrc, [Entry(s.packet, [1], NoUserId, 0.0, AGE)])]
    ensures Next(w, s).dec.ledger.ready == [] && Next(w, s).dec.generation == Some(1)
    ensures Next(w, s).phase == Holding(s.packet)
  {
    hide Enqueued, FlagsOf;
    var entry := Entry(s.packet, [1], NoUserId, 0.0, AGE);
    OneEntry(entry);
    assert [] + [entry] == [entry];
  }

  lemma OneEntry(e: Entry)
    ensures Enqueued([], e) == [e]
  {
    assert [] + [e] == [e] && [e][..0] == [];
    assert SortedBy([], e.packet.sequence) == [];
  }

  /** When its sender is known and the library opens it, it is popped. */
  lemma DowngradedOpens(w: World, s: Step, p: Datagram)
    requires w.conn == DOWNGRADED && w.clock == 0.0 && w.phase == Holding(p) && s == Receive2(Somebody, Opening)
    requires w.dec.buckets == [Bucket(p.ssrc, [Entry(p, [1], NoUserId, 0.0, AGE)])]
    requires w.dec.ledger.ready == [] && w.dec.generation == Some(1)
    ensures Next(w, s).phase == Routing([Routed(p, [9])])
  {
    var env := EnvOf(w, Somebody, Opening);
    var e := Entry(p, [1], NoUserId, 0.0, AGE);
    DowngradedState(w);
    ReleasesIt(env, e);
    PopsOne(w.dec, env, e);
    var (d, ready) := Popped(w.dec, env);
    hide Popped;
    assert ready == [p] && p in ready && ready + [] == ready;
    assert Route(ready, d.ledger.data) == [Routed(p, [9])] + Route([], d.ledger.data) == [Routed(p, [9])] by {
      assert ready[1..] == [];
    }
  }

  lemma DowngradedState(w: World)
    requires w.conn == DOWNGRADED
    ensures var s := Current(w).state; s.ready && s.downgradeAllowed && s.version == 1 && s.generation == 1
  {
  }

  lemma ReleasesIt(env: Env, e: Entry)
    requires env.state.ready && env.state.downgradeAllowed && env.user == Somebody && env.native == Opening
    requires env.now - e.queuedAt < e.maxAge
    ensures Judge(env, e, false) == Release([9])
  {
  }

  lemma PopsOne(d: Dec, env: Env, e: Entry)
    requires d.generation == Some(env.state.generation) && d.buckets == [Bucket(e.packet.ssrc, [e])]
    requires Judge(env, e, false).Release? && d.ledger.ready == []
    ensures var (f, ready) := Popped(d, env);
            ready == [e.packet] && e.packet.id in f.ledger.data
            && f.ledger.data[e.packet.id] == Judge(env, e, false).data
  {
    hide Judge, AfterTry, FlagsOf;
    TryKeepsCounters(d.ledger, env, e.packet, e.payload);
    var m := Settled(d.ledger, env, e, Judge(env, e, false));
    DrainedEmpty(m, env, false);
    assert [e][1..] == [] && d.buckets[1..] == [];
    assert QueueDrained(d.ledger, env, [e], false) == (m, []);
    assert BucketsDrained(m, env, []) == (m, []);
    assert BucketsDrained(d.ledger, env, d.buckets) == (m, []);
  }
}
