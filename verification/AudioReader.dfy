/** The reader's entry points as they are written (reader.py), proved to take exactly the steps of `Pipeline`:
    the history of every reader is a run, so whatever holds of all runs holds of it. */
module Reading {
  import opened Bytes
  import opened Options
  import opened Dave
  import opened Deferral
  import opened DrainFacts
  import opened BucketFacts
  import opened Pipeline
  import opened Bounds

  /** Media kinds whose packets are counted and skipped. */
  const NOT_AUDIO: seq<string> := ["video", "screen", "rtx", "test"]

  /** What other threads can do while the receive lock is held. */
  predicate Surrounding(s: Step) {
    s.SessionChange? || s.EpochPrepared? || s.Tick?
  }

  /** Those of the steps wanted that are possible when their turn comes. */
  function Happening(conn: Connection, clock: real, wanted: seq<Step>): seq<Step>
    decreases |wanted|
  {
    if wanted == [] then [] else
      match wanted[0]
      case SessionChange(c) =>
        if c.generation >= conn.generation then [wanted[0]] + Happening(c, clock, wanted[1..])
        else Happening(conn, clock, wanted[1..])
      case EpochPrepared(_) => [wanted[0]] + Happening(conn, clock, wanted[1..])
      case Tick(now) =>
        if now >= clock then [wanted[0]] + Happening(conn, now, wanted[1..])
        else Happening(conn, clock, wanted[1..])
      case _ => Happening(conn, clock, wanted[1..])
  }

  lemma HappeningNext(conn: Connection, clock: real, wanted: seq<Step>, i: nat, trace: seq<Step>)
    requires i < |wanted|
    ensures trace + Happening(conn, clock, wanted[i..])
         == match wanted[i]
            case SessionChange(c) =>
              if c.generation >= conn.generation then (trace + [wanted[i]]) + Happening(c, clock, wanted[i + 1..])
              else trace + Happening(conn, clock, wanted[i + 1..])
            case EpochPrepared(_) => (trace + [wanted[i]]) + Happening(conn, clock, wanted[i + 1..])
            case Tick(now) =>
              if now >= clock then (trace + [wanted[i]]) + Happening(conn, now, wanted[i + 1..])
              else trace + Happening(conn, clock, wanted[i + 1..])
            case _ => trace + Happening(conn, clock, wanted[i + 1..])
  {
    assert wanted[i..][0] == wanted[i] && wanted[i..][1..] == wanted[i + 1..];
  }

  lemma NothingHappens(conn: Connection, clock: real)
    ensures Happening(conn, clock, []) == []
  {
  }

  /** The steps that hold the receive lock. */
  function OwnSteps(trace: seq<Step>): seq<Step> {
    if trace == [] then []
    else OwnSteps(trace[..|trace| - 1]) + if Surrounding(trace[|trace| - 1]) then [] else [trace[|trace| - 1]]
  }

  function RouteOnes(n: nat): (r: seq<Step>)
    ensures |r| == n
  {
    if n == 0 then [] else RouteOnes(n - 1) + [RouteOne]
  }

  lemma OneMoreStep(trace: seq<Step>, s: Step)
    ensures OwnSteps(trace + [s]) == OwnSteps(trace) + if Surrounding(s) then [] else [s]
  {
    assert (trace + [s])[..|trace + [s]| - 1] == trace;
  }

  lemma Extends(w: World, trace: seq<Step>, s: Step)
    requires ValidRun(w, trace) && Enabled(After(w, trace), s)
    ensures ValidRun(w, trace + [s]) && After(w, trace + [s]) == Next(After(w, trace), s)
  {
    hide Next, Enabled;
    assert (trace + [s])[..|trace + [s]| - 1] == trace;
  }

  /** A packet with its data, as it is routed. */
  function DataOf(p: Datagram, data: map<nat, Bytes>): Routed {
    Routed(p, if p.id in data then data[p.id] else [])
  }

  lemma {:induction false} RouteOneMore(ps: seq<Datagram>, p: Datagram, data: map<nat, Bytes>)
    ensures Route(ps + [p], data) == Route(ps, data) + [DataOf(p, data)]
  {
    if ps == [] {
      assert ps + [p] == [p] && [p][1..] == [];
    } else {
      RouteOneMore(ps[1..], p, data);
      Joined(ps, [p]);
      Chain([DataOf(ps[0], data)], Route(ps[1..], data), [DataOf(p, data)]);
    }
  }

  lemma RouteNothing(data: map<nat, Bytes>)
    ensures Route([], data) == []
  {
  }

  /** The next packet to route, seen from both ends. */
  lemma RouteFirst(ready: seq<Datagram>, i: nat, data: map<nat, Bytes>, later: seq<Routed>)
    requires i < |ready|
    ensures Route(ready[i..], data) + later == [DataOf(ready[i], data)] + (Route(ready[i + 1..], data) + later)
    ensures Route(ready[..i + 1], data) == Route(ready[..i], data) + [DataOf(ready[i], data)]
  {
    assert ready[i..][1..] == ready[i + 1..] && ready[..i + 1] == ready[..i] + [ready[i]];
    RouteOneMore(ready[..i], ready[i], data);
    Chain([DataOf(ready[i], data)], Route(ready[i + 1..], data), later);
  }

  class AudioReader {
    const decryptor: PacketDecryptor
    var conn: Connection
    var clock: real
    var routed: seq<Routed>
    ghost var phase: Phase
    ghost var births: map<nat, Birth>
    ghost var prepared: seq<Preparation>
    ghost var start: World
    ghost var trace: seq<Step>

    ghost function View(): World
      reads this, decryptor, decryptor.bridge
    {
      World(conn, decryptor.bridge.View(), clock, decryptor.View(), phase, routed, births, prepared)
    }

    /** The history is a run that led to the present state. */
    ghost predicate Valid()
      reads this, decryptor, decryptor.bridge
    {
      && start == Start(start.conn, start.clock)
      && ValidRun(start, trace) && After(start, trace) == View()
    }

    constructor (conn: Connection, clock: real)
      ensures Valid() && View() == Start(conn, clock) && trace == [] && fresh(decryptor) && fresh(decryptor.bridge)
    {
      var bridge := new DaveBridge();
      decryptor := new PacketDecryptor(bridge);
      this.conn := conn;
      this.clock := clock;
      routed := [];
      phase := Idle;
      births := map[];
      prepared := [];
      start := Start(conn, clock);
      trace := [];
    }

    // ----- The surroundings -----

    method ChangeSession(c: Connection)
      requires Valid() && c.generation >= conn.generation
      modifies this`conn, this`trace
      ensures Valid() && trace == old(trace) + [SessionChange(c)] && View() == Next(old(View()), SessionChange(c))
      ensures View() == old(View()).(conn := c)
    {
      hide ValidRun, After, Received, Popped, Observed, Route;
      Extends(start, trace, SessionChange(c));
      conn := c;
      trace := trace + [SessionChange(c)];
    }

    method LetTimePass(now: real)
      requires Valid() && now >= clock
      modifies this`clock, this`trace
      ensures Valid() && trace == old(trace) + [Tick(now)] && View() == Next(old(View()), Tick(now))
      ensures View() == old(View()).(clock := now)
    {
      hide ValidRun, After, Received, Popped, Observed, Route;
      Extends(start, trace, Tick(now));
      clock := now;
      trace := trace + [Tick(now)];
    }

    method PrepareEpoch(epoch: int)
      requires Valid()
      modifies this`prepared, this`trace, decryptor.bridge
      ensures Valid() && trace == old(trace) + [EpochPrepared(epoch)]
      ensures View() == Next(old(View()), EpochPrepared(epoch))
      ensures View().dec == old(View()).dec && start == old(start)
    {
      hide ValidRun, After, Received, Popped, Observed, Route, Refreshed;
      Extends(start, trace, EpochPrepared(epoch));
      decryptor.bridge.EpochPrepared(conn, clock, epoch);
      if epoch == 1 {
        prepared := prepared + [Preparation(clock, conn.generation)];
      }
      trace := trace + [EpochPrepared(epoch)];
    }

    /** What other threads happen to do at this point: of the steps given, those that are possible. */
    method Interleave(between: seq<Step>)
      requires Valid()
      modifies this`conn, this`clock, this`prepared, this`trace, decryptor.bridge
      ensures Valid() && OwnSteps(trace) == old(OwnSteps(trace))
      ensures trace == old(trace) + Happening(old(conn), old(clock), between)
      ensures View().dec == old(View()).dec
    {
      hide Next, ValidRun, After, OwnSteps, Happening;
      ghost var goal := trace + Happening(conn, clock, between);
      assert between[0..] == between;
      for i := 0 to |between|
        invariant Valid() && OwnSteps(trace) == old(OwnSteps(trace)) && start == old(start)
        invariant trace + Happening(conn, clock, between[i..]) == goal
        invariant View().dec == old(View()).dec
      {
        HappeningNext(conn, clock, between, i, trace);
        OneMoreStep(trace, between[i]);
        match between[i] {
          case SessionChange(c) =>
            if c.generation >= conn.generation {
              ChangeSession(c);
            }
          case EpochPrepared(epoch) => PrepareEpoch(epoch);
          case Tick(now) =>
            if now >= clock {
              LetTimePass(now);
            }
          case _ =>
        }
      }
      NothingHappens(conn, clock);
      assert between[|between|..] == [] && trace + [] == trace;
    }

    // ----- The receive thread -----

    /** Handing packets to `_route_rtp_packet` one by one; anything may happen before each of them. */
    method RouteAll(ready: seq<Datagram>, ghost later: seq<Routed>, between: nat -> seq<Step>)
      requires Valid() && phase == Releasing(Route(ready, decryptor.data) + later)
      modifies this`conn, this`clock, this`prepared, this`trace, this`routed, this`phase, decryptor.bridge
      ensures Valid() && phase == Releasing(later) && routed == old(routed) + Route(ready, decryptor.data)
      ensures OwnSteps(trace) == old(OwnSteps(trace)) + RouteOnes(|ready|)
    {
      hide Next, ValidRun, After, OwnSteps, Route;
      RouteNothing(decryptor.data);
      assert [] + later == later && ready[0..] == ready;
      for i := 0 to |ready|
        invariant Valid() && phase == Releasing(Route(ready[i..], decryptor.data) + later)
        invariant routed == old(routed) + Route(ready[..i], decryptor.data)
        invariant OwnSteps(trace) == old(OwnSteps(trace)) + RouteOnes(i)
      {
        Interleave(between(i));
        RouteFirst(ready, i, decryptor.data, later);
        RouteRtpPacket(ready[i], Route(ready[i + 1..], decryptor.data) + later);
      }
      assert ready[..|ready|] == ready && ready[|ready|..] == [];
    }

    /** The entry to `UnknownQueue`; here a packet is only noted down. */
    method RouteRtpPacket(packet: Datagram, ghost later: seq<Routed>)
      requires Valid() && phase == Routing([DataOf(packet, decryptor.data)] + later)
      modifies this`trace, this`routed, this`phase
      ensures Valid() && phase == Releasing(later) && routed == old(routed) + [DataOf(packet, decryptor.data)]
      ensures OwnSteps(trace) == old(OwnSteps(trace)) + [RouteOne]
    {
      hide ValidRun, After, OwnSteps;
      Extends(start, trace, RouteOne);
      OneMoreStep(trace, RouteOne);
      assert ([DataOf(packet, decryptor.data)] + later)[1..] == later;
      routed := routed + [DataOf(packet, decryptor.data)];
      phase := Releasing(later);
      trace := trace + [RouteOne];
    }

    /** `_callback`, for an RTP packet. `transport` is what the transport half of the decryption returns, or nothing
        where it raises `CryptoError`. */
    method Callback(packet: Datagram, media: string, transport: Option<Bytes>, user1: Lookup, native1: Library,
                    between: seq<Step>, user2: Lookup, native2: Library, during: nat -> seq<Step>)
      returns (ghost routes: nat)
      requires Valid() && phase.Idle? && packet.id !in births
      modifies this, decryptor, decryptor.bridge
      ensures Valid() && phase.Idle?
      ensures media in {"video", "screen", "rtx", "test"} || transport.None? ==>
                trace == old(trace) && View() == old(View())
      ensures media !in {"video", "screen", "rtx", "test"} && transport.Some? ==>
                OwnSteps(trace) == old(OwnSteps(trace))
                  + [Receive1(packet, transport.value, user1, native1), Receive2(user2, native2)] + RouteOnes(routes)
    {
      hide OwnSteps, ValidRun, After, Received, Popped, RouteOnes;
      if media in NOT_AUDIO {
        return 0;
      }
      if transport.None? {
        return 0;
      }
      FirstHalf(packet, transport.value, user1, native1);
      Interleave(between);
      routes := SecondHalf(packet, user2, native2, during);
    }

    method FirstHalf(packet: Datagram, payload: Bytes, user: Lookup, native: Library)
      requires Valid() && phase.Idle? && packet.id !in births
      modifies this, decryptor, decryptor.bridge
      ensures Valid() && phase == Holding(packet)
      ensures OwnSteps(trace) == old(OwnSteps(trace)) + [Receive1(packet, payload, user, native)]
    {
      hide Received, OwnSteps, ValidRun, After;
      ghost var s := Receive1(packet, payload, user, native);
      Extends(start, trace, s);
      OneMoreStep(trace, s);
      births := births[packet.id := Birth(packet, payload, clock, Current(View()).state, |prepared|)];
      var result := decryptor.DecryptRtp(conn, clock, user, native, packet, payload);
      decryptor.data := decryptor.data[packet.id := result];
      phase := Holding(packet);
      trace := trace + [s];
    }

    /** The locked part: what is recovered, and what the step says will be routed. */
    method Pop(ghost s: Step, user: Lookup, native: Library) returns (ready: seq<Datagram>)
      requires Valid() && Enabled(View(), s) && s in {Receive2(user, native), RetryOnce(user, native)}
      modifies this`phase, this`trace, decryptor, decryptor.bridge
      ensures Valid() && OwnSteps(trace) == old(OwnSteps(trace)) + [s]
      ensures ready == old(Popped(decryptor.View(), EnvOf(View(), user, native))).1
      ensures phase == Releasing(Route(ready, decryptor.data)
                                 + if s.Receive2? && RoutesHeld(decryptor.View(), ready, old(phase).packet)
                                   then [DataOf(old(phase).packet, decryptor.data)] else [])
    {
      hide Popped, ValidRun, After, Refreshed, Route, OwnSteps, RoutesHeld;
      Extends(start, trace, s);
      OneMoreStep(trace, s);
      ghost var held := if phase.Holding? then [phase.packet] else [];
      ready := decryptor.PopRecoveredRtpPackets(conn, clock, user, native);
      assert Route(ready, decryptor.data) + [] == Route(ready, decryptor.data) && ready + [] == ready;
      if s.Receive2? {
        RouteOneMore(ready, phase.packet, decryptor.data);
        phase := Releasing(Route(ready + if RoutesHeld(decryptor.View(), ready, phase.packet) then held else [],
                                 decryptor.data));
      } else {
        phase := Releasing(Route(ready, decryptor.data));
      }
      trace := trace + [s];
    }

    method SecondHalf(packet: Datagram, user: Lookup, native: Library, during: nat -> seq<Step>)
      returns (ghost routes: nat)
      requires Valid() && phase == Holding(packet)
      modifies this, decryptor, decryptor.bridge
      ensures Valid() && phase.Idle?
      ensures OwnSteps(trace) == old(OwnSteps(trace)) + [Receive2(user, native)] + RouteOnes(routes)
    {
      hide Popped, ValidRun, After, Refreshed, Route, OwnSteps, Next, Happening;
      var ready := Pop(Receive2(user, native), user, native);
      var deferred := FlagsOf(decryptor.flags, packet.id).pending;
      if packet in ready {
        deferred := true;
      }
      ghost var dec := decryptor.View();
      ghost var held := if RoutesHeld(dec, ready, packet) then [DataOf(packet, decryptor.data)] else [];
      RouteAll(ready, held, during);
      routes := |ready|;
      if FlagsOf(decryptor.flags, packet.id).dropped {
        return;
      }
      if deferred {
        return;
      }
      Interleave(during(|ready|));
      assert held + [] == held;
      RouteRtpPacket(packet, []);
      routes := |ready| + 1;
    }

    // ----- The retry thread, and the gateway's synchronisation -----

    /** One round of `_retry_loop`. */
    method RetryRound(user: Lookup, native: Library, during: nat -> seq<Step>) returns (ghost routes: nat)
      requires Valid() && phase.Idle?
      modifies this, decryptor, decryptor.bridge
      ensures Valid() && phase.Idle?
      ensures OwnSteps(trace) == old(OwnSteps(trace)) + [RetryOnce(user, native)] + RouteOnes(routes)
    {
      hide Popped, ValidRun, After, Refreshed, Route, OwnSteps;
      var ready := Pop(RetryOnce(user, native), user, native);
      RouteAll(ready, [], during);
      routes := |ready|;
    }

    method SyncDaveSession()
      requires Valid() && phase.Idle?
      modifies this, decryptor, decryptor.bridge
      ensures Valid() && phase.Idle? && OwnSteps(trace) == old(OwnSteps(trace)) + [Sync]
    {
      hide Observed, OwnSteps;
      Extends(start, trace, Sync);
      OneMoreStep(trace, Sync);
      var s := decryptor.BridgeState(conn, clock);
      trace := trace + [Sync];
    }

    // ----- What follows -----

    /** At any point of the life of a reader: every packet that was accepted is exactly one of routed, dropped,
        queued or in hand, the counters add up, and everything routed is justified. */
    lemma AlwaysAccounted(id: nat)
      requires Valid()
      ensures Conserved(decryptor.View()) && AllJustified(View()) && Sized(decryptor.pendingInner)
      ensures TimesRouted(routed, id) <= 1
      ensures id in births && phase.Idle? ==>
                (if id in AllIds(decryptor.pendingInner) then 1 else 0)
                + (if FlagsOf(decryptor.flags, id).dropped then 1 else 0) + TimesRouted(routed, id) == 1
    {
      hide Next, Enabled, AllJustified, Conserved, Sized, AllIds;
      RunConserves(start.conn, start.clock, trace);
      RunIsJustified(start.conn, start.clock, trace);
      QueuesAreBounded(start.conn, start.clock, trace);
      ExactlyOnce(start.conn, start.clock, trace, id);
    }
  }
}
