/** The unknown-SSRC code of AudioReader as it is written (reader.py), proved to take exactly the steps of
    `UnknownRuns`, whatever the other thread does in between. */
module UnknownSenders {
  import opened Deferral
  import opened UnknownQueue
  import opened UnknownRuns

  predicate OfGateway(s: Step) {
    s.Learn? || s.Classify? || s.Forget? || s.GateTake? || s.GateFeed?
  }

  predicate OfReceiver(s: Step) {
    !OfGateway(s) && !s.Tick?
  }

  function ReceiverSteps(trace: seq<Step>): seq<Step> {
    if trace == [] then []
    else ReceiverSteps(trace[..|trace| - 1]) + if OfReceiver(trace[|trace| - 1]) then [trace[|trace| - 1]] else []
  }

  function GatewaySteps(trace: seq<Step>): seq<Step> {
    if trace == [] then []
    else GatewaySteps(trace[..|trace| - 1]) + if OfGateway(trace[|trace| - 1]) then [trace[|trace| - 1]] else []
  }

  function Times(s: Step, n: nat): seq<Step> {
    if n == 0 then [] else Times(s, n - 1) + [s]
  }

  lemma StepsOneMore(trace: seq<Step>, s: Step)
    ensures ReceiverSteps(trace + [s]) == ReceiverSteps(trace) + if OfReceiver(s) then [s] else []
    ensures GatewaySteps(trace + [s]) == GatewaySteps(trace) + if OfGateway(s) then [s] else []
  {
    assert (trace + [s])[..|trace + [s]| - 1] == trace;
  }

  lemma NoFlush(a: seq<Step>, b: seq<Step>, c: seq<Step>)
    ensures a + b + c + [] == a + b + c
  {
  }

  lemma PathChains(was: seq<Step>, a: Step, b: Step, flush: seq<Step>, c: Step, d: Step)
    ensures was + [a] + [b] + flush + [c] + [d] == was + [a, b] + flush + [c, d]
  {
  }

  lemma Extends(w: World, trace: seq<Step>, s: Step)
    requires ValidRun(w, trace) && Enabled(After(w, trace), s)
    ensures ValidRun(w, trace + [s]) && After(w, trace + [s]) == Next(After(w, trace), s)
  {
    hide Next, Enabled;
    assert (trace + [s])[..|trace + [s]| - 1] == trace;
  }

  /** What comes of the steps wanted: the impossible ones, and those of the other thread, are left out. */
  ghost function Doing(w: World, wanted: seq<Step>, gateway: bool): World
    decreases |wanted|
  {
    if wanted == [] then w else
      var s := wanted[0];
      Doing(if Enabled(w, s) && !(if gateway then OfReceiver(s) else OfGateway(s)) then Next(w, s) else w,
            wanted[1..], gateway)
  }

  lemma DoingNext(w: World, wanted: seq<Step>, i: nat, gateway: bool)
    requires i < |wanted|
    ensures var s := wanted[i];
            Doing(w, wanted[i..], gateway)
            == Doing(if Enabled(w, s) && !(if gateway then OfReceiver(s) else OfGateway(s)) then Next(w, s) else w,
                     wanted[i + 1..], gateway)
  {
    assert wanted[i..][1..] == wanted[i + 1..];
  }

  lemma NothingDoing(w: World, gateway: bool)
    ensures Doing(w, [], gateway) == w
  {
  }

  // ----- Expiring queue by queue -----

  /** The queues of `keys` are still as they were, all others are done. */
  ghost predicate Partly(was: Shelf, m: Shelf, keys: set<nat>, now: real) {
    && keys <= m.Keys <= was.Keys && (forall k | k in keys :: m[k] == was[k])
    && forall k: nat | k !in keys :: (k in m <==> k in Expired(was, now)) && (k in m ==> m[k] == Expired(was, now)[k])
  }

  lemma NothingDone(m: Shelf, now: real)
    ensures Partly(m, m, m.Keys, now)
  {
  }

  lemma AllDone(was: Shelf, m: Shelf, now: real)
    requires Partly(was, m, {}, now)
    ensures m == Expired(was, now)
  {
  }

  /** One queue more is done: replaced, or deleted when nothing is left of it. */
  lemma OneMoreDone(was: Shelf, m: Shelf, keys: set<nat>, k: nat, now: real)
    requires Partly(was, m, keys, now) && k in keys
    ensures k in m && m[k] == was[k]
    ensures var rest := Young(m[k], now);
            Partly(was, if rest == [] then m - {k} else m[k := rest], keys - {k}, now)
  {
    hide Young;
  }

  class UnknownSsrcs {
    var known: set<nat>
    var kinds: map<nat, string>
    var clock: real
    var pending: Shelf
    var tally: Tally
    var gate: Gate
    var hand: Hand
    var fed: seq<Parcel>
    var arrivals: seq<Datagram>  // numbers the packets; the source has their identity instead
    ghost var start: real
    ghost var trace: seq<Step>

    ghost function View(): World
      reads this
    {
      World(known, kinds, clock, pending, tally, gate, hand, fed, arrivals)
    }

    /** The history is a run that led to the present state. */
    ghost predicate Valid()
      reads this
    {
      ValidRun(Start(start), trace) && After(Start(start), trace) == View()
    }

    constructor (clock: real)
      ensures Valid() && View() == Start(clock) && trace == []
    {
      known := {};
      kinds := map[];
      this.clock := clock;
      pending := map[];
      tally := Tally(0, 0, 0, 0, 0);
      gate := Free;
      hand := Ready;
      fed := [];
      arrivals := [];
      start := clock;
      trace := [];
    }

    lemma Lines()
      requires Valid()
      ensures Neat(View()) && Kempt(pending, clock)
    {
      hide Next, Enabled;
      RunIsAccounted(start, trace);
    }

    // ----- Under the lock of the queues -----

    /** The inner loop of `_expire_pending_unknown_locked`. */
    method ExpireFront(queue: seq<Held>, now: real) returns (rest: seq<Held>)
      requires Ordered(queue)
      modifies this`tally
      ensures rest == Young(queue, now) && |rest| <= |queue|
      ensures tally == old(tally).(expired := old(tally.expired) + (|queue| - |rest|))
    {
      rest := queue;
      while rest != [] && Old(rest[0], now)
        invariant Ordered(rest) && |rest| <= |queue| && Young(rest, now) == Young(queue, now)
        invariant tally == old(tally).(expired := old(tally.expired) + (|queue| - |rest|))
      {
        rest := rest[1..];
        tally := tally.(expired := tally.expired + 1);
      }
      FirstIsOldest(rest, now);
    }

    /** `_expire_pending_unknown_locked`. */
    method ExpirePendingUnknown()
      requires Kempt(pending, clock)
      modifies this`pending, this`tally
      ensures pending == Expired(old(pending), clock) && tally == Counted(old(View()))
    {
      hide Ordered, Young, Old, Total, Partly, Expired;
      var keys := pending.Keys;
      ghost var was := pending;
      ExpiryShrinks(was, clock);
      NothingDone(was, clock);
      while keys != {}
        invariant Partly(was, pending, keys, clock) && Total(pending) <= Total(was)
        invariant tally == old(tally).(expired := old(tally.expired) + (Total(was) - Total(pending)))
        decreases |keys|
      {
        var k :| k in keys;
        OneMoreDone(was, pending, keys, k, clock);
        QueueIsOrdered(was, pending, keys, k, clock);
        var rest := ExpireFront(pending[k], clock);
        TotalWith(pending, k, rest);
        assert At(pending, k) == pending[k];
        pending := if rest == [] then pending - {k} else pending[k := rest];
        keys := keys - {k};
      }
      AllDone(was, pending, clock);
    }

    /** `_flush_pending_unknown_for_ssrc`. */
    method TakePendingUnknown(ssrc: nat) returns (packets: seq<Parcel>)
      requires Kempt(pending, clock)
      modifies this`pending, this`tally
      ensures (pending, packets) == Taken(old(pending), ssrc, clock) && tally == Counted(old(View()))
    {
      hide Young, Total, Expired;
      ExpiredAt(pending, clock, ssrc);
      ExpirePendingUnknown();
      var queue := At(pending, ssrc);
      pending := pending - {ssrc};
      packets := Parcels(queue);
    }

    /** The loop at the end of `_queue_pending_unknown_packet`. */
    method DropOverflow(queue: seq<Held>) returns (rest: seq<Held>)
      modifies this`tally
      ensures rest == Capped(queue)
      ensures tally == old(tally).(overflow := old(tally.overflow) + (|queue| - |rest|))
    {
      rest := queue;
      while |rest| > MAX_UNKNOWN
        invariant |rest| == |queue| || MAX_UNKNOWN <= |rest| < |queue|
        invariant rest == queue[|queue| - |rest|..]
        invariant tally == old(tally).(overflow := old(tally.overflow) + (|queue| - |rest|))
      {
        rest := rest[1..];
        tally := tally.(overflow := tally.overflow + 1);
      }
    }

    /** `_queue_pending_unknown_packet`. */
    method QueuePendingUnknownPacket(packet: Parcel)
      requires Kempt(pending, clock)
      modifies this`pending, this`tally
      ensures View() == HeldBack(old(View()), packet)
    {
      hide Young, Total, Expired, Capped;
      ExpiredAt(pending, clock, packet.packet.ssrc);
      ExpirePendingUnknown();
      var queue := At(pending, packet.packet.ssrc) + [Held(packet, clock)];
      tally := tally.(queued := tally.queued + 1);
      queue := DropOverflow(queue);
      pending := pending[packet.packet.ssrc := queue];
    }

    // ----- Not under a lock -----

    /** The body of both flushing loops. */
    method FlushOne(packet: Parcel)
      modifies this`fed, this`tally
      ensures View() == Flushed(old(View()), packet)
    {
      var kind := if packet.packet.ssrc in kinds then kinds[packet.packet.ssrc] else "unknown";
      if kind != "audio" {
        tally := tally.(nonAudio := tally.nonAudio + 1);
        return;
      }
      tally := tally.(flushed := tally.flushed + 1);
      fed := fed + [packet];
    }

    method PassTime(now: real)
      requires Valid() && now >= clock
      modifies this`clock, this`trace
      ensures Valid() && View() == Next(old(View()), Tick(now)) && trace == old(trace) + [Tick(now)]
    {
      hide ValidRun, After, Taken, Counted, Flushed, HeldBack, KindOf;
      Extends(Start(start), trace, Tick(now));
      clock := now;
      trace := trace + [Tick(now)];
    }

    /** The locked part of the gateway's flush. */
    method GatewayTakes(ssrc: nat)
      requires Valid() && gate.Free?
      modifies this`pending, this`tally, this`gate, this`trace
      ensures Valid() && View() == Next(old(View()), GateTake(ssrc)) && gate.Flushing?
      ensures trace == old(trace) + [GateTake(ssrc)]
    {
      hide ValidRun, After, Taken, Counted;
      Lines();
      Extends(Start(start), trace, GateTake(ssrc));
      var rest := TakePendingUnknown(ssrc);
      gate := Flushing(ssrc, rest);
      trace := trace + [GateTake(ssrc)];
    }

    /** One turn of the gateway's flushing loop, or its end. */
    method GatewayFeeds()
      requires Valid() && gate.Flushing?
      modifies this`fed, this`tally, this`gate, this`trace
      ensures Valid() && View() == Next(old(View()), GateFeed) && trace == old(trace) + [GateFeed]
      ensures gate == if old(gate).rest == [] then Free else Flushing(old(gate).ssrc, old(gate).rest[1..])
    {
      hide ValidRun, After, Flushed;
      Extends(Start(start), trace, GateFeed);
      if gate.rest == [] {
        gate := Free;
      } else {
        FlushOne(gate.rest[0]);
        gate := Flushing(gate.ssrc, gate.rest[1..]);
      }
      trace := trace + [GateFeed];
    }

    /** What the gateway learns or forgets. */
    method GatewayHears(s: Step)
      requires Valid() && (s.Learn? || s.Classify? || s.Forget?)
      modifies this`known, this`kinds, this`trace
      ensures Valid() && View() == Next(old(View()), s) && trace == old(trace) + [s]
    {
      hide ValidRun, After, Taken, Counted, Flushed, HeldBack, KindOf;
      Extends(Start(start), trace, s);
      match s {
        case Learn(ssrc) => known := known + {ssrc};
        case Classify(ssrc, kind) => kinds := kinds[ssrc := kind];
        case Forget(ssrc) => known, kinds := known - {ssrc}, kinds - {ssrc};
      }
      trace := trace + [s];
    }

    /** A step of the gateway, or of time, if it is possible. */
    method GatewayDoes(s: Step)
      requires Valid()
      modifies this`known, this`kinds, this`clock, this`pending, this`tally, this`gate, this`fed, this`trace
      ensures Valid() && ReceiverSteps(trace) == old(ReceiverSteps(trace))
      ensures if !OfReceiver(s) && Enabled(old(View()), s)
              then trace == old(trace) + [s] && View() == Next(old(View()), s) else View() == old(View())
    {
      hide ReceiverSteps, GatewaySteps, ValidRun, After, Next;
      StepsOneMore(trace, s);
      match s {
        case GateTake(ssrc) =>
          if gate.Free? {
            GatewayTakes(ssrc);
          }
        case GateFeed =>
          if gate.Flushing? {
            GatewayFeeds();
          }
        case Tick(now) =>
          if now >= clock {
            PassTime(now);
          }
        case Learn(ssrc) => GatewayHears(s);
        case Classify(ssrc, kind) => GatewayHears(s);
        case Forget(ssrc) => GatewayHears(s);
        case _ =>
      }
    }

    /** Steps of the gateway and of time, as they come. */
    method Meanwhile(steps: seq<Step>)
      requires Valid()
      modifies this`known, this`kinds, this`clock, this`pending, this`tally, this`gate, this`fed, this`trace
      ensures Valid() && ReceiverSteps(trace) == old(ReceiverSteps(trace))
      ensures View() == Doing(old(View()), steps, true)
    {
      hide ReceiverSteps, Next, Enabled, ValidRun, After, Doing;
      assert steps[0..] == steps;
      for i := 0 to |steps|
        invariant Valid() && ReceiverSteps(trace) == old(ReceiverSteps(trace))
        invariant Doing(View(), steps[i..], true) == Doing(old(View()), steps, true)
      {
        DoingNext(View(), steps, i, true);
        GatewayDoes(steps[i]);
      }
      assert steps[|steps|..] == [];
      NothingDoing(View(), true);
    }

    // ----- The receive thread -----

    /** The test `ssrc in _ssrc_to_id`, made twice. */
    method Test(s: Step) returns (yes: bool)
      requires Valid() && Enabled(View(), s) && (s.FirstTest? || s.SecondTest?)
      modifies this`hand, this`trace
      ensures Valid() && View() == Next(old(View()), s)
      ensures s.FirstTest? ==> hand == if yes then Expected(old(hand).parcel) else Between(old(hand).parcel)
      ensures s.SecondTest? ==> hand == if yes then Due(old(hand).parcel) else Stranger(old(hand).parcel)
      ensures trace == old(trace) + [s] && ReceiverSteps(trace) == old(ReceiverSteps(trace)) + [s]
    {
      hide ReceiverSteps, GatewaySteps, ValidRun, After;
      Extends(Start(start), trace, s);
      StepsOneMore(trace, s);
      yes := hand.parcel.packet.ssrc in known;
      if s.FirstTest? {
        hand := if yes then Expected(hand.parcel) else Between(hand.parcel);
      } else {
        hand := if yes then Due(hand.parcel) else Stranger(hand.parcel);
      }
      trace := trace + [s];
    }

    method Arriving(packet: Datagram)
      requires Valid() && hand.Ready?
      modifies this`hand, this`arrivals, this`trace
      ensures Valid() && View() == Next(old(View()), Arrive(packet))
      ensures hand == Arrived(Parcel(|old(arrivals)|, packet)) && arrivals == old(arrivals) + [packet]
      ensures trace == old(trace) + [Arrive(packet)]
      ensures ReceiverSteps(trace) == old(ReceiverSteps(trace)) + [Arrive(packet)]
    {
      hide ReceiverSteps, GatewaySteps, ValidRun, After;
      Extends(Start(start), trace, Arrive(packet));
      StepsOneMore(trace, Arrive(packet));
      hand := Arrived(Parcel(|arrivals|, packet));
      arrivals := arrivals + [packet];
      trace := trace + [Arrive(packet)];
    }

    method TakeFirst()
      requires Valid() && hand.Expected?
      modifies this`pending, this`tally, this`hand, this`trace
      ensures Valid() && View() == Next(old(View()), Take)
      ensures hand.Draining? && hand.parcel == old(hand).parcel
      ensures trace == old(trace) + [Take] && ReceiverSteps(trace) == old(ReceiverSteps(trace)) + [Take]
    {
      hide ReceiverSteps, GatewaySteps, ValidRun, After, Taken, Counted;
      Lines();
      Extends(Start(start), trace, Take);
      StepsOneMore(trace, Take);
      var rest := TakePendingUnknown(hand.parcel.packet.ssrc);
      hand := Draining(hand.parcel, rest);
      trace := trace + [Take];
    }

    /** One turn of the flushing loop, or its end. */
    method FeedNext()
      requires Valid() && hand.Draining?
      modifies this`fed, this`tally, this`hand, this`trace
      ensures Valid() && View() == Next(old(View()), FeedHeld)
      ensures hand == if old(hand).rest == [] then Between(old(hand).parcel)
                      else Draining(old(hand).parcel, old(hand).rest[1..])
      ensures trace == old(trace) + [FeedHeld] && ReceiverSteps(trace) == old(ReceiverSteps(trace)) + [FeedHeld]
    {
      hide ReceiverSteps, GatewaySteps, ValidRun, After, Flushed;
      Extends(Start(start), trace, FeedHeld);
      StepsOneMore(trace, FeedHeld);
      assert !OfGateway(FeedHeld);
      if hand.rest == [] {
        hand := Between(hand.parcel);
      } else {
        FlushOne(hand.rest[0]);
        hand := Draining(hand.parcel, hand.rest[1..]);
      }
      trace := trace + [FeedHeld];
    }

    /** The end of `_route_rtp_packet`: the packet is fed, or held back, or forgotten. */
    method Finish(s: Step)
      requires Valid() && Enabled(View(), s) && (s.FeedFresh? || s.Hold?)
      modifies this`fed, this`pending, this`tally, this`hand, this`trace
      ensures Valid() && View() == Next(old(View()), s) && hand.Ready?
      ensures trace == old(trace) + [s] && ReceiverSteps(trace) == old(ReceiverSteps(trace)) + [s]
    {
      hide ReceiverSteps, GatewaySteps, ValidRun, After, HeldBack;
      Lines();
      Extends(Start(start), trace, s);
      StepsOneMore(trace, s);
      var parcel := hand.parcel;
      if s.FeedFresh? {
        fed := fed + [parcel];
      } else if !s.silent {
        var kind := if parcel.packet.ssrc in kinds then kinds[parcel.packet.ssrc] else "unknown";
        if kind == "unknown" {
          QueuePendingUnknownPacket(parcel);
        }
      }
      hand := Ready;
      trace := trace + [s];
    }

    /** `_route_rtp_packet`, with whatever the gateway does before each of its steps. */
    method RouteRtpPacket(packet: Datagram, silent: bool, meanwhile: nat -> seq<Step>)
      returns (ghost turns: nat, ghost feeds: bool)
      requires Valid() && hand.Ready?
      modifies this
      ensures Valid() && hand.Ready? && arrivals == old(arrivals) + [packet]
      ensures ReceiverSteps(trace)
           == old(ReceiverSteps(trace)) + [Arrive(packet), FirstTest]
              + (if turns == 0 then [] else [Take] + Times(FeedHeld, turns))
              + [SecondTest, if feeds then FeedFresh else Hold(silent)]
    {
      hide ReceiverSteps, GatewaySteps, Next, ValidRun, After, Times;
      ghost var was := ReceiverSteps(trace);
      Arriving(packet);
      Meanwhile(meanwhile(0));
      var known1 := Test(FirstTest);
      var turn := 1;
      turns := 0;
      ghost var flush: seq<Step> := [];
      if known1 {
        Meanwhile(meanwhile(1));
        turn, turns := FlushBeforeRouting(meanwhile);
        flush := [Take] + Times(FeedHeld, turns);
      } else {
        NoFlush(was, [Arrive(packet)], [FirstTest]);
      }
      feeds := FeedOrHold(silent, turn, meanwhile);
      PathChains(was, Arrive(packet), FirstTest, flush, SecondTest, if feeds then FeedFresh else Hold(silent));
    }

    /** The second test of `_route_rtp_packet`, and what it leads to. */
    method FeedOrHold(silent: bool, turn: nat, meanwhile: nat -> seq<Step>) returns (feeds: bool)
      requires Valid() && hand.Between?
      modifies this
      ensures Valid() && hand.Ready? && arrivals == old(arrivals)
      ensures ReceiverSteps(trace)
           == old(ReceiverSteps(trace)) + [SecondTest] + [if feeds then FeedFresh else Hold(silent)]
    {
      hide ReceiverSteps, GatewaySteps, Next, ValidRun, After, Doing;
      Meanwhile(meanwhile(turn + 1));
      feeds := Test(SecondTest);
      Meanwhile(meanwhile(turn + 2));
      if feeds {
        Finish(FeedFresh);
      } else {
        Finish(Hold(silent));
      }
    }

    /** The flush in `_route_rtp_packet`. */
    method FlushBeforeRouting(meanwhile: nat -> seq<Step>) returns (turn: nat, ghost turns: nat)
      requires Valid() && hand.Expected?
      modifies this
      ensures Valid() && hand == Between(old(hand).parcel) && arrivals == old(arrivals) && turns >= 1
      ensures ReceiverSteps(trace) == old(ReceiverSteps(trace)) + ([Take] + Times(FeedHeld, turns))
    {
      hide ReceiverSteps, GatewaySteps, Next, ValidRun, After;
      TakeFirst();
      turn, turns := 1, 0;
      while hand.rest != []
        invariant Valid() && hand.Draining? && hand.parcel == old(hand).parcel && arrivals == old(arrivals)
        invariant ReceiverSteps(trace) == old(ReceiverSteps(trace)) + ([Take] + Times(FeedHeld, turns))
        decreases |hand.rest|
      {
        turn, turns := turn + 1, turns + 1;
        Meanwhile(meanwhile(turn));
        FeedNext();
      }
      turn, turns := turn + 1, turns + 1;
      Meanwhile(meanwhile(turn));
      FeedNext();
    }

    // ----- The gateway thread -----

    /** A step of the receive thread, or of time, if it is possible. */
    method ReceiverDoes(s: Step)
      requires Valid()
      modifies this`clock, this`pending, this`tally, this`hand, this`fed, this`arrivals, this`trace
      ensures Valid() && GatewaySteps(trace) == old(GatewaySteps(trace))
      ensures if !OfGateway(s) && Enabled(old(View()), s)
              then trace == old(trace) + [s] && View() == Next(old(View()), s) else View() == old(View())
    {
      hide ReceiverSteps, GatewaySteps, ValidRun, After, Taken, Counted, Flushed, HeldBack;
      StepsOneMore(trace, s);
      match s {
        case Arrive(packet) =>
          if hand.Ready? {
            Arriving(packet);
          }
        case FirstTest =>
          if hand.Arrived? {
            var yes := Test(s);
          }
        case Take =>
          if hand.Expected? {
            TakeFirst();
          }
        case FeedHeld =>
          if hand.Draining? {
            FeedNext();
          }
        case SecondTest =>
          if hand.Between? {
            var yes := Test(s);
          }
        case FeedFresh =>
          if hand.Due? {
            Finish(s);
          }
        case Hold(silent) =>
          if hand.Stranger? {
            Finish(s);
          }
        case Tick(now) =>
          if now >= clock {
            PassTime(now);
          }
        case _ =>
      }
    }

    method MeanwhileReceiving(steps: seq<Step>)
      requires Valid()
      modifies this`clock, this`pending, this`tally, this`hand, this`fed, this`arrivals, this`trace
      ensures Valid() && GatewaySteps(trace) == old(GatewaySteps(trace))
      ensures View() == Doing(old(View()), steps, false)
    {
      hide GatewaySteps, Next, Enabled, ValidRun, After, Doing;
      assert steps[0..] == steps;
      for i := 0 to |steps|
        invariant Valid() && GatewaySteps(trace) == old(GatewaySteps(trace))
        invariant Doing(View(), steps[i..], false) == Doing(old(View()), steps, false)
      {
        DoingNext(View(), steps, i, false);
        ReceiverDoes(steps[i]);
      }
      assert steps[|steps|..] == [];
      NothingDoing(View(), false);
    }

    /** `flush_pending_unknown_for_ssrc`, with whatever the receive thread does before each of its steps. */
    method FlushPendingUnknownForSsrc(ssrc: nat, meanwhile: nat -> seq<Step>) returns (turns: nat)
      requires Valid() && gate.Free?
      modifies this
      ensures Valid() && gate.Free?
      ensures GatewaySteps(trace) == old(GatewaySteps(trace)) + [GateTake(ssrc)] + Times(GateFeed, turns)
    {
      hide ReceiverSteps, GatewaySteps, ValidRun, After, Next, Doing;
      StepsOneMore(trace, GateTake(ssrc));
      GatewayTakes(ssrc);
      turns := 0;
      while gate.rest != []
        invariant Valid() && gate.Flushing?
        invariant GatewaySteps(trace) == old(GatewaySteps(trace)) + [GateTake(ssrc)] + Times(GateFeed, turns)
        decreases |gate.rest|
      {
        MeanwhileReceiving(meanwhile(turns));
        StepsOneMore(trace, GateFeed);
        GatewayFeeds();
        turns := turns + 1;
      }
      MeanwhileReceiving(meanwhile(turns));
      StepsOneMore(trace, GateFeed);
      GatewayFeeds();
      turns := turns + 1;
    }

    // ----- What follows -----

    /** At any point: the counters add up, nothing was fed twice, and packets of an SSRC were fed in the order of
        arrival if and only if none that was overtaken was fed later. */
    lemma AlwaysAccounted()
      requires Valid()
      ensures Balanced(View())
      ensures forall i, k | 0 <= i < k < |fed| :: fed[i].serial != fed[k].serial
      ensures InArrivalOrder(fed) <==> forall p | p in AllOvertaken(Start(start), trace) :: p !in fed
      ensures forall ssrc | ssrc in pending :: 1 <= |pending[ssrc]| <= MAX_UNKNOWN && Ordered(pending[ssrc])
    {
      hide ValidRun, After, AllOvertaken, InArrivalOrder;
      RunBalances(start, trace);
      FedOnce(start, trace);
      OrderIsKeptExactly(start, trace);
      Lines();
    }
  }

  lemma QueueIsOrdered(was: Shelf, m: Shelf, keys: set<nat>, k: nat, now: real)
    requires Kempt(was, now) && Partly(was, m, keys, now) && k in keys
    ensures k in m && Ordered(m[k])
  {
    hide Ordered;
  }
}
