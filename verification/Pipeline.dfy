/** The receive thread, the retry thread and the gateway together (AudioReader in reader.py): every
    interleaving of their locked steps. */
module Pipeline {
  import opened Bytes
  import opened Options
  import opened Dave
  import opened Deferral
  import opened DrainFacts
  import opened BucketFacts
  import opened Placement
  import DavePayload

  /** What was known when a packet arrived; `preparations` counts the preparations so far. */
  datatype Birth = Birth(packet: Datagram, payload: Bytes, at: real, state: State, preparations: nat)

  /** A packet handed to the router, with its data. */
  datatype Routed = Routed(packet: Datagram, data: Bytes)

  /** An epoch-1 preparation, as the bridge was told. */
  datatype Preparation = Preparation(at: real, generation: nat)

  /** The receive lock is held while a callback or a retry goes on; the session lock only within its locked
      steps: not between the two of a callback, and not while recovered packets are routed one by one. */
  datatype Phase = Idle | Holding(packet: Datagram) | Routing(rest: seq<Routed>)

  datatype World = World(
    conn: Connection, bridge: Bridge, clock: real, dec: Dec, phase: Phase,
    routed: seq<Routed>, births: map<nat, Birth>, prepared: seq<Preparation>)

  type Lookup = nat -> Option<nat>
  type Library = nat -> Native

  datatype Step =
    | Receive1(packet: Datagram, payload: Bytes, user: Lookup, native: Library)
    | Receive2(user2: Lookup, native2: Library)
    | RetryOnce(user3: Lookup, native3: Library)
    | RouteOne
    | Sync
    | SessionChange(conn: Connection)
    | EpochPrepared(epoch: int)
    | Tick(now: real)

  function Start(conn: Connection, clock: real): World {
    World(conn, NEW_BRIDGE, clock, NEW, Idle, [], map[], [])
  }

  /** The receive lock keeps receiving, retrying and synchronising apart; generations and time only grow. */
  predicate Enabled(w: World, s: Step) {
    match s
    case Receive1(p, _, _, _) => w.phase.Idle? && p.id !in w.births
    case Receive2(_, _) => w.phase.Holding?
    case RetryOnce(_, _) => w.phase.Idle?
    case RouteOne => w.phase.Routing? && w.phase.rest != []
    case Sync => w.phase.Idle?
    case SessionChange(c) => c.generation >= w.conn.generation
    case EpochPrepared(_) => true
    case Tick(now) => now >= w.clock
  }

  function Current(w: World): Bridge {
    Refreshed(w.bridge, w.conn, w.clock)
  }

  function EnvOf(w: World, user: Lookup, native: Library): Env {
    Env(Current(w).state, w.clock, user, native)
  }

  /** Handing packets to `_route_rtp_packet`. */
  function Route(ps: seq<Datagram>, data: map<nat, Bytes>): seq<Routed> {
    if ps == [] then [] else
      [Routed(ps[0], if ps[0].id in data then data[ps[0].id] else [])] + Route(ps[1..], data)
  }

  /** The packet in hand is routed unless it was dropped, is deferred, or was among the recovered ones. */
  predicate RoutesHeld(d: Dec, ready: seq<Datagram>, p: Datagram) {
    var f := FlagsOf(d.ledger.flags, p.id);
    !f.dropped && !f.pending && p !in ready
  }

  /** What a thread goes on with once it has popped. */
  function Releasing(rest: seq<Routed>): Phase {
    if rest == [] then Idle else Routing(rest)
  }

  /** What is still in the hands of the routing thread. */
  function Rest(w: World): seq<Routed> {
    if w.phase.Routing? then w.phase.rest else []
  }

  /** Packets leave the decryptor when they are popped, under the session lock, and are routed after that. */
  function Released(w: World): seq<Routed> {
    w.routed + Rest(w)
  }

  function Next(w: World, s: Step): World {
    match s
    case Receive1(p, payload, user, native) =>
      var (d, result) := Received(w.dec, EnvOf(w, user, native), p, payload);
      w.(bridge := Current(w), dec := d.(ledger := d.ledger.(data := d.ledger.data[p.id := result])),
         phase := Holding(p), births := w.births[p.id := Birth(p, payload, w.clock, Current(w).state, |w.prepared|)])
    case Receive2(user, native) =>
      if !w.phase.Holding? then w else
        var (d, ready) := Popped(w.dec, EnvOf(w, user, native));
        var held := if RoutesHeld(d, ready, w.phase.packet) then [w.phase.packet] else [];
        w.(bridge := Current(w), dec := d, phase := Releasing(Route(ready + held, d.ledger.data)))
    case RetryOnce(user, native) =>
      var (d, ready) := Popped(w.dec, EnvOf(w, user, native));
      w.(bridge := Current(w), dec := d, phase := Releasing(Route(ready, d.ledger.data)))
    case RouteOne =>
      if Rest(w) == [] then w else w.(routed := w.routed + [Rest(w)[0]], phase := Releasing(Rest(w)[1..]))
    case Sync => w.(bridge := Current(w), dec := Observed(w.dec, w.conn.generation))
    case SessionChange(c) => w.(conn := c)
    case EpochPrepared(epoch) =>
      w.(bridge := Prepared(w.bridge, w.conn, w.clock, epoch),
         prepared := if epoch == 1 then w.prepared + [Preparation(w.clock, w.conn.generation)] else w.prepared)
    case Tick(now) => w.(clock := now)
  }

  /** A run, as the worlds' transitions allow it. */
  ghost predicate ValidRun(w: World, steps: seq<Step>)
    decreases |steps|
  {
    steps == [] || (ValidRun(w, steps[..|steps| - 1])
                    && Enabled(After(w, steps[..|steps| - 1]), steps[|steps| - 1]))
  }

  ghost function After(w: World, steps: seq<Step>): World
    decreases |steps|
  {
    if steps == [] then w else Next(After(w, steps[..|steps| - 1]), steps[|steps| - 1])
  }

  // ----- Conservation -----

  lemma {:induction false} RunConserves(conn: Connection, clock: real, steps: seq<Step>)
    requires ValidRun(Start(conn, clock), steps)
    ensures Conserved(After(Start(conn, clock), steps).dec)
    decreases |steps|
  {
    hide Received, Popped, Observed, Refreshed;
    if steps != [] {
      var n := |steps| - 1;
      RunConserves(conn, clock, steps[..n]);
      var w := After(Start(conn, clock), steps[..n]);
      match steps[n] {
        case Receive1(p, payload, user, native) => ReceivedConserves(w.dec, EnvOf(w, user, native), p, payload);
        case Receive2(user, native) => PoppedConserves(w.dec, EnvOf(w, user, native));
        case RetryOnce(user, native) => PoppedConserves(w.dec, EnvOf(w, user, native));
        case Sync => ObservedConserves(w.dec, w.conn.generation);
        case RouteOne =>
        case SessionChange(c) =>
        case EpochPrepared(epoch) =>
        case Tick(now) =>
      }
    }
  }

  // ----- Exactly once -----

  /** How often a packet was routed. */
  function TimesRouted(routed: seq<Routed>, id: nat): nat {
    if routed == [] then 0 else (if routed[0].packet.id == id then 1 else 0) + TimesRouted(routed[1..], id)
  }

  lemma {:induction false} TimesRoutedBoth(a: seq<Routed>, b: seq<Routed>, id: nat)
    ensures TimesRouted(a + b, id) == TimesRouted(a, id) + TimesRouted(b, id)
  {
    if a == [] {
      assert a + b == b;
    } else {
      TimesRoutedBoth(a[1..], b, id);
      assert (a + b)[1..] == a[1..] + b;
    }
  }

  lemma {:induction false} TimesRoute(ps: seq<Datagram>, data: map<nat, Bytes>, id: nat)
    ensures TimesRouted(Route(ps, data), id) == Times(ps, id)
  {
    if ps != [] {
      TimesRoute(ps[1..], data, id);
      assert Route(ps, data)[1..] == Route(ps[1..], data);
    }
  }

  /** Routing takes a packet from the hands of the thread and releases nothing new. */
  lemma ReleasedStays(w: World, s: Step)
    requires Enabled(w, s) && !s.Receive2? && !s.RetryOnce?
    ensures Released(Next(w, s)) == Released(w)
  {
    hide Received, Observed, Prepared, Refreshed;
    if s.RouteOne? {
      assert w.phase.rest == [w.phase.rest[0]] + w.phase.rest[1..];
    }
  }

  /** What a pop releases. */
  lemma ReleasedByPop(w: World, s: Step, env: Env, out: seq<Datagram>)
    requires Enabled(w, s) && (s.Receive2? || s.RetryOnce?)
    requires env == if s.Receive2? then EnvOf(w, s.user2, s.native2) else EnvOf(w, s.user3, s.native3)
    requires var (d, ready) := Popped(w.dec, env);
             out == ready + if s.Receive2? && RoutesHeld(d, ready, w.phase.packet) then [w.phase.packet] else []
    ensures Released(w) == w.routed == Next(w, s).routed
    ensures Released(Next(w, s)) == Released(w) + Route(out, Popped(w.dec, env).0.ledger.data)
  {
    hide Popped, RoutesHeld, Route;
    var (d, ready) := Popped(w.dec, env);
    assert ready + [] == ready;
  }

  /** No step takes back what was released. */
  lemma MoreReleased(w: World, s: Step) returns (more: seq<Routed>)
    requires Enabled(w, s)
    ensures Released(Next(w, s)) == Released(w) + more
  {
    hide Popped, Next, Released, Route, RoutesHeld;
    if s.Receive2? || s.RetryOnce? {
      var env := if s.Receive2? then EnvOf(w, s.user2, s.native2) else EnvOf(w, s.user3, s.native3);
      var (d, ready) := Popped(w.dec, env);
      var out := ready + if s.Receive2? && RoutesHeld(d, ready, w.phase.packet) then [w.phase.packet] else [];
      ReleasedByPop(w, s, env, out);
      more := Route(out, d.ledger.data);
    } else {
      ReleasedStays(w, s);
      more := [];
    }
  }

  /** The packet of the running callback, when it is neither queued nor dropped. */
  predicate InHand(w: World, id: nat) {
    w.phase.Holding? && w.phase.packet.id == id && Load(w.dec, id) == 0
  }

  /** A packet that has arrived is queued, or dropped, or in hand, or was released once: exactly one of these. */
  ghost predicate InOnePlace(w: World, id: nat) {
    && Truthful(w.dec, id)
    && Load(w.dec, id) + (if InHand(w, id) then 1 else 0) + TimesRouted(Released(w), id)
       == (if id in w.births then 1 else 0)
  }

  /** An entry is for a packet that arrived, with its payload, in the generation last observed. */
  ghost predicate Known(w: World, e: Entry) {
    && e.packet.id in w.births
    && w.births[e.packet.id].packet == e.packet && w.births[e.packet.id].payload == e.payload
    && w.dec.generation == Some(w.births[e.packet.id].state.generation)
  }

  ghost predicate Orderly(w: World) {
    && Tidy(w.dec)
    && (forall id | id in AllIds(w.dec.buckets) :: id in w.births)
    && (forall e | e in AllEntries(w.dec.buckets) :: Known(w, e))
    && (w.phase.Holding? ==> w.phase.packet.id in w.births && w.births[w.phase.packet.id].packet == w.phase.packet)
    && (forall id | id in w.births :: w.births[id].packet.id == id)
    && (w.dec.generation.Some? ==> w.dec.generation.value <= w.conn.generation)
  }

  lemma StepKeepsOrderly(w: World, s: Step)
    requires Orderly(w) && Enabled(w, s)
    ensures Orderly(Next(w, s))
  {
    hide Received, Popped, Observed, Prepared, AllIds, DistinctAll, KeysDistinct, Route;
    match s {
      case Receive1(p, payload, user, native) =>
        ReceivedTidy(w.dec, EnvOf(w, user, native), p, payload);
        ObservedTidy(w.dec, w.conn.generation);
        GenerationEmpties(w.dec, w.conn.generation);
      case Receive2(user, native) =>
        PoppedTidy(w.dec, EnvOf(w, user, native));
        PoppedSurvivors(w.dec, EnvOf(w, user, native));
      case RetryOnce(user, native) =>
        PoppedTidy(w.dec, EnvOf(w, user, native));
        PoppedSurvivors(w.dec, EnvOf(w, user, native));
      case Sync =>
        ObservedTidy(w.dec, w.conn.generation);
        ObservedGeneration(w.dec, w.conn.generation);
        GenerationEmpties(w.dec, w.conn.generation);
      case RouteOne =>
      case SessionChange(c) =>
      case EpochPrepared(epoch) =>
      case Tick(now) =>
    }
  }

  /** Entries only survive a drain within one generation. */
  lemma PoppedSurvivors(d: Dec, env: Env)
    requires Tidy(d)
    ensures forall e | e in AllEntries(Popped(d, env).0.buckets) ::
              e in AllEntries(d.buckets) && d.generation == Some(env.state.generation)
  {
    hide Popped, Observed, DistinctAll, KeysDistinct, Keys, KeptAll;
    PoppedTidy(d, env);
    GenerationEmpties(d, env.state.generation);
    ObservedTidy(d, env.state.generation);
    NothingKept(env);
  }

  lemma NothingKept(env: Env)
    ensures KeptAll(env, []) == []
  {
  }

  lemma DataIsNoPlace(d: Dec, data: map<nat, Bytes>, id: nat)
    ensures var e := d.(ledger := d.ledger.(data := data));
            (Truthful(e, id) <==> Truthful(d, id)) && Load(e, id) == Load(d, id)
  {
  }

  lemma ReceiveKeepsPlace(w: World, s: Step, id: nat)
    requires s.Receive1? && Orderly(w) && Enabled(w, s) && InOnePlace(w, id)
    ensures InOnePlace(Next(w, s), id)
  {
    hide Received, AllIds, Tidy, Truthful, Load, Released;
    var env := EnvOf(w, s.user, s.native);
    ArrivalIsNew(w, s, id);
    ReleasedStays(w, s);
    ReceivedPlaces(w.dec, env, s.packet, s.payload, id);
    var (d, result) := Received(w.dec, env, s.packet, s.payload);
    DataIsNoPlace(d, d.ledger.data[s.packet.id := result], id);
  }

  lemma ArrivalIsNew(w: World, s: Step, id: nat)
    requires s.Receive1? && Orderly(w) && Enabled(w, s) && InOnePlace(w, id)
    ensures Tidy(w.dec) && s.packet.id !in AllIds(w.dec.buckets) && Truthful(w.dec, id)
  {
  }

  lemma PopKeepsPlace(w: World, s: Step, id: nat)
    requires (s.Receive2? || s.RetryOnce?) && Orderly(w) && Enabled(w, s) && InOnePlace(w, id)
    ensures InOnePlace(Next(w, s), id)
  {
    hide Popped, AllIds, Tidy, Truthful, Ids, Route, Known, AllEntries, Released;
    var env := if s.Receive2? then EnvOf(w, s.user2, s.native2) else EnvOf(w, s.user3, s.native3);
    PoppedPlaces(w.dec, env, id);
    var (d, ready) := Popped(w.dec, env);
    var held := if s.Receive2? && RoutesHeld(d, ready, w.phase.packet) then [w.phase.packet] else [];
    var out := ready + held;
    TimesOfBoth(ready, held, id);
    assert held != [] ==> held[1..] == [];
    if s.Receive2? {
      HeldIsReady(w, env);
    }
    ReleasedByPop(w, s, env, out);
    TimesRoute(out, d.ledger.data, id);
    TimesRoutedBoth(Released(w), Route(out, d.ledger.data), id);
  }

  /** The packet in hand is among the recovered ones exactly when its number is. */
  lemma HeldIsReady(w: World, env: Env)
    requires Orderly(w) && w.phase.Holding?
    ensures w.phase.packet in Popped(w.dec, env).1 <==> w.phase.packet.id in Ids(Popped(w.dec, env).1)
  {
    hide Popped, AllEntries, Tidy;
    var ready := Popped(w.dec, env).1;
    if w.phase.packet.id in Ids(ready) {
      var q :| q in ready && q.id == w.phase.packet.id;
      var e := PoppedWereEntries(w.dec, env, q);
      assert Known(w, e);
    }
  }

  lemma OtherKeepsPlace(w: World, s: Step, id: nat)
    requires Enabled(w, s) && !s.Receive1? && !s.Receive2? && !s.RetryOnce? && InOnePlace(w, id)
    ensures InOnePlace(Next(w, s), id)
  {
    hide Observed, AllIds, Prepared, Released;
    ReleasedStays(w, s);
    if s.Sync? {
      ObservedPlaces(w.dec, w.conn.generation, id);
    }
  }

  /** Every run keeps the bookkeeping, and keeps each packet in one place. */
  lemma {:induction false} RunIsOrderly(conn: Connection, clock: real, steps: seq<Step>)
    requires ValidRun(Start(conn, clock), steps)
    ensures Orderly(After(Start(conn, clock), steps))
    ensures forall id :: InOnePlace(After(Start(conn, clock), steps), id)
    decreases |steps|
  {
    hide Next, Enabled, Orderly, InOnePlace;
    if steps == [] {
      StartIsOrderly(conn, clock);
    } else {
      var n := |steps| - 1;
      RunIsOrderly(conn, clock, steps[..n]);
      var w := After(Start(conn, clock), steps[..n]);
      StepKeepsOrderly(w, steps[n]);
      forall id
        ensures InOnePlace(After(Start(conn, clock), steps), id)
      {
        StepKeepsPlace(w, steps[n], id);
      }
    }
  }

  lemma StepKeepsPlace(w: World, s: Step, id: nat)
    requires Orderly(w) && Enabled(w, s) && InOnePlace(w, id)
    ensures InOnePlace(Next(w, s), id)
  {
    hide Next, Orderly, InOnePlace;
    if s.Receive1? {
      ReceiveKeepsPlace(w, s, id);
    } else if s.Receive2? || s.RetryOnce? {
      PopKeepsPlace(w, s, id);
    } else {
      OtherKeepsPlace(w, s, id);
    }
  }

  lemma StartIsOrderly(conn: Connection, clock: real)
    ensures Orderly(Start(conn, clock))
    ensures forall id :: InOnePlace(Start(conn, clock), id)
  {
  }

  /** Over every run, a packet that arrived is routed at most once, and is at any time exactly one of: routed, about
      to be routed, flagged dropped, queued (which is when its pending flag is set), or in the hands of the running
      callback. */
  lemma ExactlyOnce(conn: Connection, clock: real, steps: seq<Step>, id: nat)
    requires ValidRun(Start(conn, clock), steps)
    ensures var w := After(Start(conn, clock), steps);
            var f := FlagsOf(w.dec.ledger.flags, id);
            && (f.pending <==> id in AllIds(w.dec.buckets))
            && DistinctAll(w.dec.buckets) && w.dec.ledger.ready == []
            && TimesRouted(w.routed, id) + TimesRouted(Rest(w), id) <= 1
            && (id !in w.births ==>
                  TimesRouted(w.routed, id) == TimesRouted(Rest(w), id) == 0 && !f.pending && !f.dropped)
            && (id in w.births ==>
                  (if f.pending then 1 else 0) + (if f.dropped then 1 else 0)
                  + TimesRouted(w.routed, id) + TimesRouted(Rest(w), id)
                  + (if w.phase == Holding(w.births[id].packet) && !f.pending && !f.dropped then 1 else 0) == 1)
  {
    hide AllIds, DistinctAll, KeysDistinct, TimesRouted;
    RunIsOrderly(conn, clock, steps);
    var w := After(Start(conn, clock), steps);
    assert InOnePlace(w, id);
    TimesRoutedBoth(w.routed, Rest(w), id);
    if w.phase.Holding? && id in w.births {
      assert w.births[id].packet.id == id;
    }
  }

  /** Once dropped, always dropped. */
  lemma DroppedStaysDropped(w: World, s: Step, id: nat)
    requires Orderly(w) && Enabled(w, s) && InOnePlace(w, id)
    requires FlagsOf(w.dec.ledger.flags, id).dropped
    ensures FlagsOf(Next(w, s).dec.ledger.flags, id).dropped
  {
    hide Popped, Received, Observed, Prepared, AllEntries, AllIds, DistinctAll, KeysDistinct;
    match s {
      case Receive1(p, payload, user, native) => ReceivedPlaces(w.dec, EnvOf(w, user, native), p, payload, id);
      case Receive2(user, native) => PoppedPlaces(w.dec, EnvOf(w, user, native), id);
      case RetryOnce(user, native) => PoppedPlaces(w.dec, EnvOf(w, user, native), id);
      case Sync => ObservedPlaces(w.dec, w.conn.generation, id);
      case _ =>
    }
  }

  // ----- Group isolation -----

  /** A library call was made in the generation in which its packet had arrived, on the payload it had. */
  ghost predicate Isolated(w: World, o: Offer) {
    && o.id in w.births
    && w.births[o.id].state.generation == o.generation
    && w.births[o.id].payload == o.payload
  }

  lemma {:induction false} AskedForEntries(env: Env, queue: seq<Entry>, blocked: bool, o: Offer) returns (e: Entry)
    requires o in Asked(env, queue, blocked)
    ensures e in queue && o.id == e.packet.id && o.payload == e.payload && o.generation == env.state.generation
    decreases |queue|
  {
    hide Judge;
    var v := Judge(env, queue[0], blocked);
    if o in Asked(env, queue[1..], blocked || v.Retry?) {
      e := AskedForEntries(env, queue[1..], blocked || v.Retry?, o);
    } else {
      e := queue[0];
    }
  }

  lemma {:induction false} AllAskedForEntries(env: Env, bs: seq<Bucket>, o: Offer) returns (e: Entry)
    requires o in AskedAll(env, bs)
    ensures e in AllEntries(bs) && o.id == e.packet.id && o.payload == e.payload && o.generation == env.state.generation
    decreases |bs|
  {
    hide Asked;
    if o in Asked(env, bs[0].queue, false) {
      e := AskedForEntries(env, bs[0].queue, false, o);
    } else {
      e := AllAskedForEntries(env, bs[1..], o);
    }
  }

  lemma PopIsIsolated(w: World, env: Env, o: Offer)
    requires Orderly(w) && env.state.generation == w.conn.generation
    requires o in Popped(w.dec, env).0.ledger.offers && o !in w.dec.ledger.offers
    ensures Isolated(w, o)
  {
    hide Popped, Observed, AllEntries, AskedAll, DistinctAll, KeysDistinct, AllIds;
    PoppedTidy(w.dec, env);
    ObservedTidy(w.dec, env.state.generation);
    GenerationEmpties(w.dec, env.state.generation);
    var e := AllAskedForEntries(env, Observed(w.dec, env.state.generation).buckets, o);
    NoEntries();
    assert Known(w, e);
  }

  lemma NoEntries()
    ensures AllEntries([]) == {}
  {
  }

  lemma ReceiveIsIsolated(w: World, s: Step, o: Offer)
    requires s.Receive1? && Orderly(w) && Enabled(w, s)
    requires o in Next(w, s).dec.ledger.offers && o !in w.dec.ledger.offers
    ensures Isolated(Next(w, s), o)
  {
    hide Received, Observed, AllEntries, DistinctAll, KeysDistinct, AllIds;
    ReceivedTidy(w.dec, EnvOf(w, s.user, s.native), s.packet, s.payload);
    ObservedTidy(w.dec, w.conn.generation);
  }

  lemma StepKeepsIsolation(w: World, s: Step, o: Offer)
    requires Orderly(w) && Enabled(w, s)
    requires o in w.dec.ledger.offers ==> Isolated(w, o)
    requires o in Next(w, s).dec.ledger.offers
    ensures Isolated(Next(w, s), o)
  {
    hide Received, Popped, Observed, Prepared, Orderly;
    if o in w.dec.ledger.offers {
    } else if s.Receive1? {
      ReceiveIsIsolated(w, s, o);
    } else if s.Receive2? {
      PopIsIsolated(w, EnvOf(w, s.user2, s.native2), o);
    } else if s.RetryOnce? {
      PopIsIsolated(w, EnvOf(w, s.user3, s.native3), o);
    } else {
      SyncAsksNothing(w, s);
    }
  }

  lemma SyncAsksNothing(w: World, s: Step)
    requires Orderly(w) && Enabled(w, s) && !s.Receive1? && !s.Receive2? && !s.RetryOnce?
    ensures Next(w, s).dec.ledger.offers == w.dec.ledger.offers
  {
    hide Observed, DistinctAll, KeysDistinct, AllIds, AllEntries;
    ObservedTidy(w.dec, w.conn.generation);
  }

  /** Over every interleaving, ciphertext is only ever offered to the session of the generation that was
      observed when it arrived, fresh or after any wait in a queue; and whatever is queued belongs to the
      generation last observed. */
  lemma {:induction false} GroupIsolation(conn: Connection, clock: real, steps: seq<Step>, o: Offer)
    requires ValidRun(Start(conn, clock), steps)
    ensures var w := After(Start(conn, clock), steps);
            && (o in w.dec.ledger.offers ==> Isolated(w, o))
            && (forall e | e in AllEntries(w.dec.buckets) :: Known(w, e))
    decreases |steps|
  {
    hide Next, Enabled, Known, Isolated, AllEntries;
    RunIsOrderly(conn, clock, steps);
    if steps != [] {
      var n := |steps| - 1;
      var w := After(Start(conn, clock), steps[..n]);
      GroupIsolation(conn, clock, steps[..n], o);
      RunIsOrderly(conn, clock, steps[..n]);
      if o in After(Start(conn, clock), steps).dec.ledger.offers {
        StepKeepsIsolation(w, steps[n], o);
      }
    }
  }

  // ----- What is routed -----

  /** The data is what the library returned for the packet, or the packet arrived unmarked under protocol
      version 0 and was passed through. */
  ghost predicate Justified(w: World, r: Routed) {
    && r.packet.id in w.births
    && (|| (exists o :: o in w.dec.ledger.offers && o.id == r.packet.id && o.result == Plain(r.data))
        || (var b := w.births[r.packet.id];
            b.state.version == 0 && !EndsWithMarker(b.payload) && r.data == b.payload))
  }

  /** A fresh packet that is neither queued nor dropped. */
  lemma ReceivedResult(d: Dec, env: Env, p: Datagram, payload: Bytes)
    requires Tidy(d) && p.id !in AllIds(d.buckets) && Load(Received(d, env, p, payload).0, p.id) == 0
    ensures var (e, result) := Received(d, env, p, payload);
            || (env.state.version == 0 && !EndsWithMarker(payload) && result == payload)
            || (exists o :: o in e.ledger.offers && o.id == p.id && o.result == Plain(result))
  {
    hide AllIds, DistinctAll, KeysDistinct, Observed, Deferred, AfterTry, Tried;
    var s := d.(ledger := Marked(d.ledger, p.id, NO_FLAGS));
    var o := Observed(s, env.state.generation);
    ObservedTidy(s, env.state.generation);
    ObservedGeneration(s, env.state.generation);
    ObservedPlaces(s, env.state.generation, p.id);
    var n := o.(ledger := Marked(o.ledger, p.id, FlagsOf(o.ledger.flags, p.id).(needsInner := true, pending := false)));
    if !RejectsPlaintext(payload, env.state)
       && (env.state.version > 0 || DavePayload.Parse(payload).Some?) {
      InnerResult(n, env, p, payload);
    }
  }

  lemma InnerResult(d: Dec, env: Env, p: Datagram, payload: Bytes)
    requires Tidy(d) && d.generation == Some(env.state.generation) && p.id !in AllIds(d.buckets)
    requires Truthful(d, p.id) && Load(d, p.id) == 0 && Load(Inner(d, env, p, payload).0, p.id) == 0
    ensures var (e, result) := Inner(d, env, p, payload);
            exists o :: o in e.ledger.offers && o.id == p.id && o.result == Plain(result)
  {
    hide AllIds, DistinctAll, KeysDistinct, Deferred, AfterTry;
    var t := d.(ledger := AfterTry(d.ledger, env, p, payload));
    TryKeepsCounters(d.ledger, env, p, payload);
    DeferredPlaces(d, env, p, payload, InOrder, p.id);
    if Tried(env, p, payload).Failure? {
      FailureKeepsFlags(d.ledger, env, p, payload);
      DeferredPlaces(t, env, p, payload, Tried(env, p, payload).reason, p.id);
    } else {
      TryAsks(d.ledger, env, p, payload);
      assert Calls(env, p, payload)[0] in t.ledger.offers;
    }
  }

  lemma FailureKeepsFlags(l: Ledger, env: Env, p: Datagram, payload: Bytes)
    requires Tried(env, p, payload).Failure?
    ensures AfterTry(l, env, p, payload).flags == l.flags
  {
  }

  /** What has been released, and what is in hand, is justified. */
  ghost predicate AllJustified(w: World) {
    && (forall r | r in Released(w) :: Justified(w, r))
    && (w.phase.Holding? && InHand(w, w.phase.packet.id) ==>
          w.phase.packet.id in w.dec.ledger.data
          && Justified(w, Routed(w.phase.packet, w.dec.ledger.data[w.phase.packet.id])))
  }

  /** Justifications last: calls and births are never forgotten. */
  lemma JustifiedLasts(w: World, v: World, r: Routed)
    requires Justified(w, r)
    requires forall o | o in w.dec.ledger.offers :: o in v.dec.ledger.offers
    requires forall id | id in w.births :: id in v.births && v.births[id] == w.births[id]
    ensures Justified(v, r)
  {
  }

  lemma OffersGrow(w: World, s: Step)
    requires Orderly(w) && Enabled(w, s)
    ensures forall o | o in w.dec.ledger.offers :: o in Next(w, s).dec.ledger.offers
    ensures forall id | id in w.births :: id in Next(w, s).births && Next(w, s).births[id] == w.births[id]
  {
    hide Received, Popped, Observed, Prepared, DistinctAll, KeysDistinct, AllIds, AllEntries;
    ObservedTidy(w.dec, w.conn.generation);
    match s {
      case Receive1(p, payload, user, native) => ReceivedTidy(w.dec, EnvOf(w, user, native), p, payload);
      case Receive2(user, native) => PoppedTidy(w.dec, EnvOf(w, user, native));
      case RetryOnce(user, native) => PoppedTidy(w.dec, EnvOf(w, user, native));
      case _ =>
    }
  }

  lemma {:induction false} RouteMember(ps: seq<Datagram>, data: map<nat, Bytes>, r: Routed)
    requires r in Route(ps, data)
    ensures r.packet in ps && r.data == if r.packet.id in data then data[r.packet.id] else []
  {
    if r != Route(ps, data)[0] {
      RouteMember(ps[1..], data, r);
    }
  }

  lemma PopJustifies(w: World, s: Step, r: Routed)
    requires (s.Receive2? || s.RetryOnce?) && Orderly(w) && Enabled(w, s) && AllJustified(w)
    requires forall id :: InOnePlace(w, id)
    requires r in Released(Next(w, s)) && r !in Released(w)
    ensures Justified(Next(w, s), r)
  {
    hide Popped, AllIds, DistinctAll, KeysDistinct, AllEntries, Ids, Justified, Truthful, Released;
    var env := if s.Receive2? then EnvOf(w, s.user2, s.native2) else EnvOf(w, s.user3, s.native3);
    var (d, ready) := Popped(w.dec, env);
    var held := if s.Receive2? && RoutesHeld(d, ready, w.phase.packet) then [w.phase.packet] else [];
    ReleasedByPop(w, s, env, ready + held);
    RouteMember(ready + held, d.ledger.data, r);
    if r.packet in ready {
      ReadyIsJustified(w, s, env, r);
    } else {
      HeldIsJustified(w, s, env, r);
    }
  }

  lemma ReadyIsJustified(w: World, s: Step, env: Env, r: Routed)
    requires (s.Receive2? || s.RetryOnce?) && Orderly(w) && Enabled(w, s)
    requires Next(w, s).dec == Popped(w.dec, env).0
    requires var (d, ready) := Popped(w.dec, env);
             r.packet in ready && r.data == if r.packet.id in d.ledger.data then d.ledger.data[r.packet.id] else []
    ensures Justified(Next(w, s), r)
  {
    hide Popped, AllIds, DistinctAll, KeysDistinct, AllEntries;
    PoppedData(w.dec, env, r.packet);
    var e := PoppedWereEntries(w.dec, env, r.packet);
    assert Known(w, e);
  }

  lemma HeldIsJustified(w: World, s: Step, env: Env, r: Routed)
    requires s.Receive2? && Orderly(w) && Enabled(w, s) && AllJustified(w) && InOnePlace(w, r.packet.id)
    requires env == EnvOf(w, s.user2, s.native2) && r.packet == w.phase.packet
    requires var (d, ready) := Popped(w.dec, env);
             && RoutesHeld(d, ready, r.packet)
             && r.data == if r.packet.id in d.ledger.data then d.ledger.data[r.packet.id] else []
    ensures Justified(Next(w, s), r)
  {
    hide Popped, AllIds, DistinctAll, KeysDistinct, AllEntries, Ids, Justified;
    PoppedPlaces(w.dec, env, r.packet.id);
    HeldIsReady(w, env);
    OffersGrow(w, s);
    JustifiedLasts(w, Next(w, s), r);
  }

  lemma StepKeepsJustified(w: World, s: Step)
    requires Orderly(w) && Enabled(w, s) && AllJustified(w)
    requires forall id :: InOnePlace(w, id)
    ensures AllJustified(Next(w, s))
  {
    hide Received, Popped, Observed, Prepared, Justified, Orderly, InOnePlace, Load, Released;
    OffersGrow(w, s);
    var v := Next(w, s);
    if !s.Receive2? && !s.RetryOnce? {
      ReleasedStays(w, s);
    }
    forall r | r in Released(v)
      ensures Justified(v, r)
    {
      if r in Released(w) {
        JustifiedLasts(w, v, r);
      } else {
        PopJustifies(w, s, r);
      }
    }
    if v.phase.Holding? && InHand(v, v.phase.packet.id) {
      if s.Receive1? {
        FreshIsJustified(w, s);
      } else {
        StillInHand(w, s);
        JustifiedLasts(w, v, Routed(w.phase.packet, w.dec.ledger.data[w.phase.packet.id]));
      }
    }
  }

  lemma FreshIsJustified(w: World, s: Step)
    requires s.Receive1? && Orderly(w) && Enabled(w, s) && InHand(Next(w, s), s.packet.id)
    ensures s.packet.id in Next(w, s).dec.ledger.data
    ensures Justified(Next(w, s), Routed(s.packet, Next(w, s).dec.ledger.data[s.packet.id]))
  {
    hide Received, AllIds, DistinctAll, KeysDistinct, AllEntries, Observed;
    var env := EnvOf(w, s.user, s.native);
    var (d, result) := Received(w.dec, env, s.packet, s.payload);
    DataIsNoPlace(d, d.ledger.data[s.packet.id := result], s.packet.id);
    ReceivedResult(w.dec, env, s.packet, s.payload);
  }

  lemma StillInHand(w: World, s: Step)
    requires Orderly(w) && Enabled(w, s) && (forall id :: InOnePlace(w, id))
    requires !s.Receive1?
    requires Next(w, s).phase.Holding? && InHand(Next(w, s), Next(w, s).phase.packet.id)
    ensures w.phase == Next(w, s).phase && InHand(w, w.phase.packet.id)
    ensures SameData(w.dec.ledger, Next(w, s).dec.ledger, w.phase.packet.id)
  {
    hide Popped, Observed, Prepared, AllIds, DistinctAll, KeysDistinct, AllEntries;
  }

  /** Over every run, each packet released carries the library's plaintext for it, or had arrived unmarked under
      protocol version 0. */
  lemma {:induction false} RunIsJustified(conn: Connection, clock: real, steps: seq<Step>)
    requires ValidRun(Start(conn, clock), steps)
    ensures AllJustified(After(Start(conn, clock), steps))
    decreases |steps|
  {
    hide Next, Enabled, Orderly, InOnePlace, Justified;
    if steps != [] {
      var n := |steps| - 1;
      RunIsJustified(conn, clock, steps[..n]);
      RunIsOrderly(conn, clock, steps[..n]);
      StepKeepsJustified(After(Start(conn, clock), steps[..n]), steps[n]);
    }
  }
}
