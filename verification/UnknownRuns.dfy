/** Routing with unknown senders as two threads do it (reader.py, voice_client.py): the receive thread routes packets,
    the gateway thread learns who sends on which SSRC and flushes what was held back. Only the operations of
    `UnknownQueue` are under a lock. */
module UnknownRuns {
  import opened Options
  import opened Deferral
  import opened UnknownQueue

  /** The gateway thread: between flushes, or with packets taken off the shelf in its hands. */
  datatype Gate = Free | Flushing(ssrc: nat, rest: seq<Parcel>)

  /** The receive thread, which holds the receive lock for all of `_route_rtp_packet`. */
  datatype Hand =
    | Ready
    | Arrived(parcel: Parcel)                       // before the first test
    | Expected(parcel: Parcel)                      // its user is known: about to flush
    | Draining(parcel: Parcel, rest: seq<Parcel>)   // with packets taken off the shelf
    | Between(parcel: Parcel)                       // before the second test
    | Due(parcel: Parcel)                           // its user is known: about to be fed
    | Stranger(parcel: Parcel)                      // its user is not known

  datatype World = World(
    known: set<nat>, kinds: map<nat, string>, clock: real, shelf: Shelf, tally: Tally,
    gate: Gate, hand: Hand, fed: seq<Parcel>, arrivals: seq<Datagram>)

  datatype Step =
    | Learn(ssrc: nat) | Classify(ssrc: nat, kind: string) | Forget(ssrc: nat)
    | GateTake(ssrc: nat) | GateFeed
    | Arrive(packet: Datagram) | FirstTest | Take | FeedHeld | SecondTest | FeedFresh | Hold(silent: bool)
    | Tick(now: real)

  function Start(clock: real): World {
    World({}, map[], clock, map[], Tally(0, 0, 0, 0, 0), Free, Ready, [], [])
  }

  predicate Enabled(w: World, s: Step) {
    match s
    case GateTake(_) => w.gate.Free?
    case GateFeed => w.gate.Flushing?
    case Arrive(_) => w.hand.Ready?
    case FirstTest => w.hand.Arrived?
    case Take => w.hand.Expected?
    case FeedHeld => w.hand.Draining?
    case SecondTest => w.hand.Between?
    case FeedFresh => w.hand.Due?
    case Hold(_) => w.hand.Stranger?
    case Tick(now) => now >= w.clock
    case _ => true
  }

  /** `_get_ssrc_media_kind`. */
  function KindOf(w: World, ssrc: nat): string {
    if ssrc in w.kinds then w.kinds[ssrc] else "unknown"
  }

  /** Expiring counts what goes. */
  ghost function Counted(w: World): Tally {
    ExpiryShrinks(w.shelf, w.clock);
    w.tally.(expired := w.tally.expired + (Total(w.shelf) - Total(Expired(w.shelf, w.clock))))
  }

  /** Flushing one packet: it is fed if it is audio, and counted. */
  function Flushed(w: World, p: Parcel): World {
    if KindOf(w, p.packet.ssrc) == "audio"
    then w.(fed := w.fed + [p], tally := w.tally.(flushed := w.tally.flushed + 1))
    else w.(tally := w.tally.(nonAudio := w.tally.nonAudio + 1))
  }

  /** Holding back a packet counts it, and what makes room for it. */
  ghost function HeldBack(w: World, p: Parcel): World {
    var longer := Joining(w.shelf, p, w.clock);
    var t := Counted(w);
    w.(shelf := Queued(w.shelf, p, w.clock),
       tally := t.(queued := t.queued + 1, overflow := t.overflow + (|longer| - |Capped(longer)|)))
  }

  ghost function Next(w: World, s: Step): World {
    if !Enabled(w, s) then w
    else
      match s
      case Learn(ssrc) => w.(known := w.known + {ssrc})
      case Classify(ssrc, kind) => w.(kinds := w.kinds[ssrc := kind])
      case Forget(ssrc) => w.(known := w.known - {ssrc}, kinds := w.kinds - {ssrc})
      case GateTake(ssrc) =>
        var (m, rest) := Taken(w.shelf, ssrc, w.clock);
        w.(shelf := m, tally := Counted(w), gate := Flushing(ssrc, rest))
      case GateFeed =>
        if w.gate.rest == [] then w.(gate := Free)
        else Flushed(w, w.gate.rest[0]).(gate := Flushing(w.gate.ssrc, w.gate.rest[1..]))
      case Arrive(packet) => w.(hand := Arrived(Parcel(|w.arrivals|, packet)), arrivals := w.arrivals + [packet])
      case FirstTest =>
        w.(hand := if w.hand.parcel.packet.ssrc in w.known then Expected(w.hand.parcel) else Between(w.hand.parcel))
      case Take =>
        var (m, rest) := Taken(w.shelf, w.hand.parcel.packet.ssrc, w.clock);
        w.(shelf := m, tally := Counted(w), hand := Draining(w.hand.parcel, rest))
      case FeedHeld =>
        if w.hand.rest == [] then w.(hand := Between(w.hand.parcel))
        else Flushed(w, w.hand.rest[0]).(hand := Draining(w.hand.parcel, w.hand.rest[1..]))
      case SecondTest =>
        w.(hand := if w.hand.parcel.packet.ssrc in w.known then Due(w.hand.parcel) else Stranger(w.hand.parcel))
      case FeedFresh => w.(fed := w.fed + [w.hand.parcel], hand := Ready)
      case Hold(silent) =>
        if silent || KindOf(w, w.hand.parcel.packet.ssrc) != "unknown" then w.(hand := Ready)
        else HeldBack(w, w.hand.parcel).(hand := Ready)
      case Tick(now) => w.(clock := now)
  }

  ghost predicate ValidRun(w: World, steps: seq<Step>)
    decreases |steps|
  {
    steps == [] || (ValidRun(w, steps[..|steps| - 1]) && Enabled(After(w, steps[..|steps| - 1]), steps[|steps| - 1]))
  }

  ghost function After(w: World, steps: seq<Step>): World
    decreases |steps|
  {
    if steps == [] then w else Next(After(w, steps[..|steps| - 1]), steps[|steps| - 1])
  }

  // ----- What every step keeps -----

  function GateRest(w: World): seq<Parcel> {
    if w.gate.Flushing? then w.gate.rest else []
  }

  function HandRest(w: World): seq<Parcel> {
    if w.hand.Draining? then w.hand.rest else []
  }

  /** The SSRC of what a thread has in its hands. */
  function GateSsrc(w: World): nat {
    if w.gate.Flushing? then w.gate.ssrc else 0
  }

  function HandSsrc(w: World): nat {
    if w.hand.Ready? then 0 else w.hand.parcel.packet.ssrc
  }

  /** The first number that nobody but the packet being routed has. */
  function Frontier(w: World): int {
    |w.arrivals| - if w.hand.Ready? then 0 else 1
  }

  ghost predicate Genuine(arrivals: seq<Datagram>, p: Parcel) {
    p.serial < |arrivals| && arrivals[p.serial] == p.packet
  }

  /** Packets of one SSRC in the order of arrival, all before the packet being routed. */
  ghost predicate Line(arrivals: seq<Datagram>, frontier: int, ssrc: nat, ps: seq<Parcel>) {
    Rising(ps) && forall p | p in ps :: p.packet.ssrc == ssrc && Genuine(arrivals, p) && p.serial < frontier
  }

  ghost predicate Before(ps: seq<Parcel>, qs: seq<Parcel>) {
    forall p, q | p in ps && q in qs && p.packet.ssrc == q.packet.ssrc :: p.serial < q.serial
  }

  ghost predicate BeforeShelf(ps: seq<Parcel>, m: Shelf) {
    forall p, h | p in ps && h in At(m, p.packet.ssrc) :: p.serial < h.parcel.serial
  }

  ghost predicate ShelfNeat(arrivals: seq<Datagram>, frontier: int, m: Shelf) {
    forall ssrc, h | h in At(m, ssrc) ::
      h.parcel.packet.ssrc == ssrc && Genuine(arrivals, h.parcel) && h.parcel.serial < frontier
  }

  ghost predicate AllGenuine(arrivals: seq<Datagram>, ps: seq<Parcel>) {
    forall p | p in ps :: Genuine(arrivals, p)
  }

  /** In the order of arrival come, for each SSRC, first what the gateway has in its hands, then what the receive
      thread has, then what is held, and last the packet being routed. */
  ghost predicate Neat(w: World) {
    && Kempt(w.shelf, w.clock) && ShelfNeat(w.arrivals, Frontier(w), w.shelf)
    && Line(w.arrivals, Frontier(w), GateSsrc(w), GateRest(w))
    && Line(w.arrivals, Frontier(w), HandSsrc(w), HandRest(w))
    && Before(GateRest(w), HandRest(w)) && BeforeShelf(GateRest(w), w.shelf)
    && (w.hand.Draining? ==> At(w.shelf, HandSsrc(w)) == [])
    && (!w.hand.Ready? ==> w.hand.parcel.serial == |w.arrivals| - 1 && Genuine(w.arrivals, w.hand.parcel))
    && AllGenuine(w.arrivals, w.fed)
  }

  // ----- Small steps of the argument -----

  lemma NoLine(arrivals: seq<Datagram>, frontier: int, ssrc: nat)
    ensures Line(arrivals, frontier, ssrc, [])
    ensures forall ps :: Before([], ps) && Before(ps, [])
    ensures forall m :: BeforeShelf([], m)
  {
  }

  lemma LineTail(arrivals: seq<Datagram>, frontier: int, ssrc: nat, ps: seq<Parcel>)
    requires Line(arrivals, frontier, ssrc, ps) && ps != []
    ensures Line(arrivals, frontier, ssrc, ps[1..]) && Genuine(arrivals, ps[0]) && ps[0].packet.ssrc == ssrc
    ensures forall p | p in ps[1..] :: p in ps && ps[0].serial < p.serial
    ensures forall qs | Before(ps, qs) :: Before(ps[1..], qs)
    ensures forall qs | Before(qs, ps) :: Before(qs, ps[1..])
    ensures forall m | BeforeShelf(ps, m) :: BeforeShelf(ps[1..], m)
  {
  }

  /** Time and new arrivals change nothing about packets that are there. */
  lemma LineLater(arrivals: seq<Datagram>, more: seq<Datagram>, frontier: int, later: int, ssrc: nat, ps: seq<Parcel>)
    requires arrivals <= more && frontier <= later && Line(arrivals, frontier, ssrc, ps)
    ensures Line(more, later, ssrc, ps)
  {
    hide Rising;
  }

  lemma ShelfLater(arrivals: seq<Datagram>, more: seq<Datagram>, frontier: int, later: int, m: Shelf, n: Shelf)
    requires arrivals <= more && frontier <= later && ShelfNeat(arrivals, frontier, m)
    requires forall ssrc, h | h in At(n, ssrc) :: h in At(m, ssrc)
    ensures ShelfNeat(more, later, n)
    ensures forall ps | BeforeShelf(ps, m) :: BeforeShelf(ps, n)
  {
    hide At;
    forall ps: seq<Parcel> | BeforeShelf(ps, m)
      ensures BeforeShelf(ps, n)
    {
      forall p: Parcel, h | p in ps && h in At(n, p.packet.ssrc)
        ensures p.serial < h.parcel.serial
      {
        assert h in At(m, p.packet.ssrc);
      }
    }
  }

  /** Expiring takes away only. */
  lemma ExpiredComesFrom(m: Shelf, now: real)
    ensures forall ssrc, h | h in At(Expired(m, now), ssrc) :: h in At(m, ssrc)
  {
    hide Expired, Young, Old;
    forall ssrc, h | h in At(Expired(m, now), ssrc)
      ensures h in At(m, ssrc)
    {
      ExpiredAt(m, now, ssrc);
      YoungPart(At(m, ssrc), now);
    }
  }

  lemma WithoutComesFrom(m: Shelf, ssrc: nat)
    ensures forall other, h | h in At(m - {ssrc}, other) :: h in At(m, other)
    ensures At(m - {ssrc}, ssrc) == []
  {
  }

  /** What is taken off the shelf was held there; what stays was there too. */
  lemma TakenFacts(arrivals: seq<Datagram>, frontier: int, m: Shelf, now: real, ssrc: nat)
    requires Kempt(m, now) && ShelfNeat(arrivals, frontier, m)
    ensures var (n, rest) := Taken(m, ssrc, now);
            && Kempt(n, now) && ShelfNeat(arrivals, frontier, n) && At(n, ssrc) == []
            && Line(arrivals, frontier, ssrc, rest)
            && (forall p | p in rest :: exists h :: h in At(m, ssrc) && h.parcel == p)
            && (forall ps | BeforeShelf(ps, m) :: BeforeShelf(ps, n) && Before(ps, rest))
            && (At(m, ssrc) == [] ==> rest == [])
  {
    hide Expired, Young, Old, Ordered, Parcels, Rising, At, Genuine;
    var e := Expired(m, now);
    var queue := Young(At(m, ssrc), now);
    ExpiredIsKempt(m, now, now);
    KemptWithout(e, now, ssrc);
    ExpiredComesFrom(m, now);
    WithoutComesFrom(e, ssrc);
    ShelfLater(arrivals, arrivals, frontier, frontier, m, e - {ssrc});
    YoungPart(At(m, ssrc), now);
    EmptyIsOrdered();
    assert Ordered(At(m, ssrc)) by { KemptAt(m, now, ssrc); }
    YoungKeepsOrder(At(m, ssrc), now);
    ParcelsRise(queue);
    forall p | p in Parcels(queue)
      ensures exists h :: h in At(m, ssrc) && h.parcel == p
    {
      ParcelsOf(queue, p);
    }
    NothingYoung(now);
  }

  lemma NothingYoung(now: real)
    ensures Young([], now) == [] && Parcels([]) == []
  {
  }

  lemma KemptAt(m: Shelf, now: real, ssrc: nat)
    requires Kempt(m, now)
    ensures Ordered(At(m, ssrc)) && |At(m, ssrc)| <= MAX_UNKNOWN
  {
  }

  lemma KemptWithout(m: Shelf, now: real, ssrc: nat)
    requires Kempt(m, now)
    ensures Kempt(m - {ssrc}, now)
  {
    hide Ordered;
  }

  lemma KemptLater(m: Shelf, now: real, later: real)
    requires Kempt(m, now) && now <= later
    ensures Kempt(m, later)
  {
    hide Ordered;
  }

  // ----- The steps -----

  lemma GateTakeKeepsNeat(w: World, s: Step)
    requires Neat(w) && Enabled(w, s) && s.GateTake?
    ensures Neat(Next(w, s))
  {
    hide Taken, Counted, Kempt, ShelfNeat, BeforeShelf, Line, At, AllGenuine;
    TakenFacts(w.arrivals, Frontier(w), w.shelf, w.clock, s.ssrc);
    var rest := Taken(w.shelf, s.ssrc, w.clock).1;
    TakenIsBeforeOthers(w, s.ssrc);
  }

  /** The gateway takes nothing that the receive thread should hand on first. */
  lemma TakenIsBeforeOthers(w: World, ssrc: nat)
    requires Neat(w)
    ensures var (n, rest) := Taken(w.shelf, ssrc, w.clock);
            Before(rest, HandRest(w)) && BeforeShelf(rest, n)
    ensures w.hand.Draining? ==> At(Taken(w.shelf, ssrc, w.clock).0, HandSsrc(w)) == []
  {
    hide Kempt, ShelfNeat, Genuine, Rising, Expired, Young, Parcels;
    TakenFacts(w.arrivals, Frontier(w), w.shelf, w.clock, ssrc);
    ExpiredComesFrom(w.shelf, w.clock);
    WithoutComesFrom(Expired(w.shelf, w.clock), ssrc);
    var left := At(Taken(w.shelf, ssrc, w.clock).0, HandSsrc(w));
    assert left == [] || left[0] in left;
  }

  lemma TakeKeepsNeat(w: World, s: Step)
    requires Neat(w) && Enabled(w, s) && s.Take?
    ensures Neat(Next(w, s))
  {
    hide Taken, Counted, Kempt, ShelfNeat, BeforeShelf, Line, At, AllGenuine, Before;
    TakenFacts(w.arrivals, Frontier(w), w.shelf, w.clock, HandSsrc(w));
  }

  lemma FeedsGenuine(w: World, p: Parcel)
    requires AllGenuine(w.arrivals, w.fed) && Genuine(w.arrivals, p)
    ensures AllGenuine(w.arrivals, w.fed + [p]) && AllGenuine(w.arrivals, Flushed(w, p).fed)
  {
    hide Genuine;
  }

  lemma GateFeedKeepsNeat(w: World, s: Step)
    requires Neat(w) && Enabled(w, s) && s.GateFeed?
    ensures Neat(Next(w, s))
  {
    hide Kempt, ShelfNeat, BeforeShelf, Line, At, AllGenuine, Before;
    NoLine(w.arrivals, Frontier(w), 0);
    if w.gate.rest != [] {
      LineTail(w.arrivals, Frontier(w), GateSsrc(w), w.gate.rest);
      FeedsGenuine(w, w.gate.rest[0]);
    }
  }

  lemma FeedHeldKeepsNeat(w: World, s: Step)
    requires Neat(w) && Enabled(w, s) && s.FeedHeld?
    ensures Neat(Next(w, s))
  {
    hide Kempt, ShelfNeat, BeforeShelf, Line, At, AllGenuine, Before;
    NoLine(w.arrivals, Frontier(w), HandSsrc(w));
    if w.hand.rest != [] {
      LineTail(w.arrivals, Frontier(w), HandSsrc(w), w.hand.rest);
      FeedsGenuine(w, w.hand.rest[0]);
    }
  }

  lemma FeedFreshKeepsNeat(w: World, s: Step)
    requires Neat(w) && Enabled(w, s) && s.FeedFresh?
    ensures Neat(Next(w, s))
  {
    hide Kempt, ShelfNeat, BeforeShelf, Line, At, AllGenuine, Before;
    NoLine(w.arrivals, |w.arrivals|, 0);
    LineLater(w.arrivals, w.arrivals, Frontier(w), |w.arrivals|, GateSsrc(w), GateRest(w));
    ShelfLater(w.arrivals, w.arrivals, Frontier(w), |w.arrivals|, w.shelf, w.shelf);
    FeedsGenuine(w, w.hand.parcel);
  }

  lemma HoldKeepsNeat(w: World, s: Step)
    requires Neat(w) && Enabled(w, s) && s.Hold?
    ensures Neat(Next(w, s))
  {
    hide Counted, Kempt, ShelfNeat, BeforeShelf, Line, At, AllGenuine, Before, Queued, Joining, KindOf;
    var p := w.hand.parcel;
    NoLine(w.arrivals, |w.arrivals|, 0);
    LineLater(w.arrivals, w.arrivals, Frontier(w), |w.arrivals|, GateSsrc(w), GateRest(w));
    ShelfLater(w.arrivals, w.arrivals, Frontier(w), |w.arrivals|, w.shelf, w.shelf);
    HeldComesLast(w);
  }

  lemma HeldComesLast(w: World)
    requires Neat(w) && w.hand.Stranger?
    ensures var n := Queued(w.shelf, w.hand.parcel, w.clock);
            && Kempt(n, w.clock) && ShelfNeat(w.arrivals, |w.arrivals|, n) && BeforeShelf(GateRest(w), n)
  {
    hide Kempt, Line, Queued, Rising, AllGenuine;
    var p := w.hand.parcel;
    QueuedIsKempt(w.shelf, p, w.clock);
    QueuedComesFrom(w.shelf, p, w.clock);
    assert forall q | q in GateRest(w) :: q.serial < p.serial by { LineIsBehind(w); }
  }

  lemma LineIsBehind(w: World)
    requires Neat(w) && !w.hand.Ready?
    ensures forall q | q in GateRest(w) || q in HandRest(w) :: q.serial < w.hand.parcel.serial
  {
    hide Rising, Kempt;
  }

  lemma QueuedComesFrom(m: Shelf, p: Parcel, now: real)
    ensures forall ssrc, h | h in At(Queued(m, p, now), ssrc) ::
              h in At(m, ssrc) || (ssrc == p.packet.ssrc && h.parcel == p)
  {
    hide Expired, Young, Old;
    ExpiredComesFrom(m, now);
    YoungPart(At(m, p.packet.ssrc), now);
    var n := Queued(m, p, now);
    forall ssrc, h | h in At(n, ssrc)
      ensures h in At(m, ssrc) || (ssrc == p.packet.ssrc && h.parcel == p)
    {
      if ssrc == p.packet.ssrc {
        assert h in Joining(m, p, now);
      } else {
        assert h in At(Expired(m, now), ssrc);
      }
    }
  }

  lemma OtherKeepsNeat(w: World, s: Step)
    requires Neat(w) && Enabled(w, s)
    requires !s.GateTake? && !s.Take? && !s.GateFeed? && !s.FeedHeld? && !s.FeedFresh? && !s.Hold?
    ensures Neat(Next(w, s))
  {
    hide Kempt, ShelfNeat, BeforeShelf, Line, At, AllGenuine, Before;
    NoLine(w.arrivals, Frontier(w), 0);
    if s.Tick? {
      KemptLater(w.shelf, w.clock, s.now);
    } else if s.Arrive? {
      var more := w.arrivals + [s.packet];
      LineLater(w.arrivals, more, Frontier(w), Frontier(w), GateSsrc(w), GateRest(w));
      NoLine(more, Frontier(w), s.packet.ssrc);
      ShelfLater(w.arrivals, more, Frontier(w), Frontier(w), w.shelf, w.shelf);
      GenuineLater(w.arrivals, more, w.fed);
    } else {
      NoLine(w.arrivals, Frontier(w), HandSsrc(w));
    }
  }

  lemma GenuineLater(arrivals: seq<Datagram>, more: seq<Datagram>, ps: seq<Parcel>)
    requires arrivals <= more && AllGenuine(arrivals, ps)
    ensures AllGenuine(more, ps)
  {
  }

  lemma StepKeepsNeat(w: World, s: Step)
    requires Neat(w) && Enabled(w, s)
    ensures Neat(Next(w, s))
  {
    hide Neat, Next;
    if s.GateTake? {
      GateTakeKeepsNeat(w, s);
    } else if s.Take? {
      TakeKeepsNeat(w, s);
    } else if s.GateFeed? {
      GateFeedKeepsNeat(w, s);
    } else if s.FeedHeld? {
      FeedHeldKeepsNeat(w, s);
    } else if s.FeedFresh? {
      FeedFreshKeepsNeat(w, s);
    } else if s.Hold? {
      HoldKeepsNeat(w, s);
    } else {
      OtherKeepsNeat(w, s);
    }
  }

  // ----- What can still be fed -----

  function Waiting(w: World, ssrc: nat): seq<Parcel> {
    Parcels(Young(At(w.shelf, ssrc), w.clock))
  }

  /** In somebody's hands, or held and young enough, or being routed. */
  ghost predicate Outstanding(w: World, p: Parcel) {
    || p in GateRest(w) || p in HandRest(w) || p in Waiting(w, p.packet.ssrc)
    || (!w.hand.Ready? && p == w.hand.parcel)
  }

  /** The packet that a step feeds to the router. */
  function FedBy(w: World, s: Step): Option<Parcel> {
    match s
    case GateFeed =>
      if GateRest(w) != [] && KindOf(w, GateRest(w)[0].packet.ssrc) == "audio" then Some(GateRest(w)[0]) else None
    case FeedHeld =>
      if HandRest(w) != [] && KindOf(w, HandRest(w)[0].packet.ssrc) == "audio" then Some(HandRest(w)[0]) else None
    case FeedFresh => if w.hand.Ready? then None else Some(w.hand.parcel)
    case _ => None
  }

  /** The packets that a step overtakes: those of its SSRC in the gateway's hands, whenever the receive thread feeds
      one, and besides, when it feeds a fresh one, those that are held and young. */
  function Overtaken(w: World, s: Step): set<Parcel> {
    if FedBy(w, s).None? || s.GateFeed? then {} else
      var ssrc := FedBy(w, s).value.packet.ssrc;
      (set p | p in GateRest(w) && p.packet.ssrc == ssrc)
      + if s.FeedFresh? then set p | p in Waiting(w, ssrc) else {}
  }

  lemma FedGrows(w: World, s: Step)
    requires Enabled(w, s)
    ensures Next(w, s).fed == w.fed + if FedBy(w, s).Some? then [FedBy(w, s).value] else []
  {
    hide Queued, Taken, Counted, Waiting, Young, Parcels;
  }

  lemma WaitingIsHeld(w: World, ssrc: nat)
    ensures forall p ::
              p in Waiting(w, ssrc) <==> exists h :: h in At(w.shelf, ssrc) && !Old(h, w.clock) && h.parcel == p
  {
    hide At, Old, Young, Parcels;
    YoungPart(At(w.shelf, ssrc), w.clock);
    forall p
      ensures p in Waiting(w, ssrc) <==> exists h :: h in At(w.shelf, ssrc) && !Old(h, w.clock) && h.parcel == p
    {
      ParcelsOf(Young(At(w.shelf, ssrc), w.clock), p);
    }
  }

  /** Taking moves what is waiting into somebody's hands; nothing else starts to wait by it. */
  lemma TakenWaits(m: Shelf, ssrc: nat, now: real, other: nat)
    ensures Young(At(Taken(m, ssrc, now).0, other), now) == if other == ssrc then [] else Young(At(m, other), now)
    ensures Taken(m, ssrc, now).1 == Parcels(Young(At(m, ssrc), now))
  {
    hide Young, Parcels, Old;
    ExpiredAt(m, now, other);
    YoungAgain(At(m, other), now);
    NothingYoung(now);
    assert other != ssrc ==> At(Expired(m, now) - {ssrc}, other) == At(Expired(m, now), other);
  }

  /** Time only makes packets older. */
  lemma OlderWaitsLess(queue: seq<Held>, now: real, later: real, p: Parcel)
    requires now <= later && p in Parcels(Young(queue, later))
    ensures p in Parcels(Young(queue, now))
  {
    hide Young, Parcels;
    YoungPart(queue, now);
    YoungPart(queue, later);
    ParcelsOf(Young(queue, later), p);
    ParcelsOf(Young(queue, now), p);
  }

  /** Holding back a packet: it waits now, and what waited may have had to make room. */
  lemma HeldWaits(m: Shelf, p: Parcel, now: real, q: Parcel)
    requires q in Parcels(Young(At(Queued(m, p, now), q.packet.ssrc), now))
    ensures q == p || q in Parcels(Young(At(m, q.packet.ssrc), now))
  {
    hide Young, Parcels, Old, Expired, Capped;
    var ssrc := q.packet.ssrc;
    var n := Queued(m, p, now);
    YoungPart(At(n, ssrc), now);
    ParcelsOf(Young(At(n, ssrc), now), q);
    YoungPart(At(m, ssrc), now);
    ParcelsOf(Young(At(m, ssrc), now), q);
    ExpiredAt(m, now, ssrc);
    CappedComesFrom(Joining(m, p, now));
  }

  lemma CappedComesFrom(queue: seq<Held>)
    ensures forall h | h in Capped(queue) :: h in queue
  {
  }

  /** What is taken is of the SSRC asked for, and was waiting. */
  lemma TakenWaited(w: World, ssrc: nat, q: Parcel)
    requires Neat(w) && q in Taken(w.shelf, ssrc, w.clock).1
    ensures q.packet.ssrc == ssrc && q in Waiting(w, ssrc)
  {
    hide Kempt, Young, Parcels, Rising, Genuine, Expired, At, BeforeShelf, Before;
    TakenFacts(w.arrivals, Frontier(w), w.shelf, w.clock, ssrc);
  }

  /** Nothing becomes outstanding but a packet that arrives. */
  lemma OutstandingShrinks(w: World, s: Step, q: Parcel)
    requires Neat(w) && Enabled(w, s) && Outstanding(Next(w, s), q)
    ensures Outstanding(w, q) || (s.Arrive? && q == Parcel(|w.arrivals|, s.packet))
  {
    hide Neat, Young, Parcels, Taken, Counted, Queued, KindOf, Joining, At;
    match s {
      case GateTake(ssrc) => TakeShrinks(w, s, q);
      case Take => TakeShrinks(w, s, q);
      case Tick(now) =>
        if q in Waiting(Next(w, s), q.packet.ssrc) {
          OlderWaitsLess(At(w.shelf, q.packet.ssrc), w.clock, now, q);
        }
      case Hold(silent) =>
        if q in Waiting(Next(w, s), q.packet.ssrc) && Next(w, s).shelf != w.shelf {
          HeldWaits(w.shelf, w.hand.parcel, w.clock, q);
        }
      case _ =>
    }
  }

  lemma TakeShrinks(w: World, s: Step, q: Parcel)
    requires Neat(w) && Enabled(w, s) && (s.GateTake? || s.Take?) && Outstanding(Next(w, s), q)
    ensures Outstanding(w, q)
  {
    hide Neat, Young, Parcels, Taken, Counted, At;
    var ssrc := if s.GateTake? then s.ssrc else HandSsrc(w);
    TakenWaits(w.shelf, ssrc, w.clock, q.packet.ssrc);
    NothingYoung(w.clock);
    if q in Taken(w.shelf, ssrc, w.clock).1 {
      TakenWaited(w, ssrc, q);
    }
  }

  /** What is outstanding besides the packet being routed arrived before it. */
  lemma OutstandingFacts(w: World, q: Parcel)
    requires Neat(w) && Outstanding(w, q)
    ensures Genuine(w.arrivals, q)
    ensures w.hand.Ready? || q == w.hand.parcel || q.serial < w.hand.parcel.serial
    ensures q in Waiting(w, q.packet.ssrc) ==>
              forall p | p in GateRest(w) && p.packet.ssrc == q.packet.ssrc :: p.serial < q.serial
    ensures q in Waiting(w, q.packet.ssrc) && w.hand.Draining? ==> HandSsrc(w) != q.packet.ssrc
  {
    hide Kempt, Rising, Young, Parcels, Old;
    if q in Waiting(w, q.packet.ssrc) {
      WaitingIsHeld(w, q.packet.ssrc);
      var h :| h in At(w.shelf, q.packet.ssrc) && h.parcel == q;
    }
  }

  lemma GateFeeds(w: World, s: Step, q: Parcel)
    requires Neat(w) && Enabled(w, s) && s.GateFeed? && FedBy(w, s).Some? && Outstanding(Next(w, s), q)
    ensures Outstanding(w, q) && q != w.gate.rest[0]
    ensures q.packet.ssrc == w.gate.ssrc ==> w.gate.rest[0].serial < q.serial
  {
    hide Kempt, ShelfNeat, Young, Parcels, At, KindOf;
    OutstandingShrinks(w, s, q);
    OutstandingFacts(w, q);
    LineTail(w.arrivals, Frontier(w), GateSsrc(w), w.gate.rest);
    var r := w.gate.rest[0];
    assert r in GateRest(w);
    if q.packet.ssrc != w.gate.ssrc {
      assert q != r;
    } else if !w.hand.Ready? && q == w.hand.parcel {
      LineIsBehind(w);
    }
  }

  lemma HandFeeds(w: World, s: Step, q: Parcel)
    requires Neat(w) && Enabled(w, s) && s.FeedHeld? && FedBy(w, s).Some? && Outstanding(Next(w, s), q)
    ensures Outstanding(w, q) && q != w.hand.rest[0]
    ensures q.packet.ssrc == HandSsrc(w) && q.serial < w.hand.rest[0].serial ==> q in GateRest(w)
  {
    hide Kempt, ShelfNeat, Young, Parcels, At, KindOf;
    OutstandingShrinks(w, s, q);
    OutstandingFacts(w, q);
    LineTail(w.arrivals, Frontier(w), HandSsrc(w), w.hand.rest);
    var r := w.hand.rest[0];
    assert r in HandRest(w);
    LineIsBehind(w);
  }

  lemma FreshFeeds(w: World, s: Step, q: Parcel)
    requires Neat(w) && Enabled(w, s) && s.FeedFresh? && Outstanding(Next(w, s), q)
    ensures Outstanding(w, q) && q != w.hand.parcel
    ensures q in GateRest(w) || q in Waiting(w, q.packet.ssrc)
  {
    hide Kempt, ShelfNeat, Young, Parcels, At, KindOf;
    OutstandingShrinks(w, s, q);
    if q in Waiting(w, q.packet.ssrc) {
      WaitingIsBehind(w, q);
    }
    LineIsBehind(w);
  }

  lemma WaitingIsBehind(w: World, q: Parcel)
    requires Neat(w) && !w.hand.Ready? && q in Waiting(w, q.packet.ssrc)
    ensures q.serial < w.hand.parcel.serial
  {
    hide Kempt, Rising, Young, Parcels, Old;
    WaitingIsHeld(w, q.packet.ssrc);
    var h :| h in At(w.shelf, q.packet.ssrc) && h.parcel == q;
  }

  /** What a step overtakes is outstanding, of the same SSRC and earlier; and nothing else that is and stays so. */
  lemma OvertakenExactly(w: World, s: Step, q: Parcel)
    requires Neat(w) && Enabled(w, s) && FedBy(w, s).Some?
    ensures var r := FedBy(w, s).value;
            && Outstanding(w, r) && !Outstanding(Next(w, s), r)
            && (q in Overtaken(w, s) ==> Outstanding(w, q) && q.packet.ssrc == r.packet.ssrc && q.serial < r.serial)
            && (Outstanding(Next(w, s), q) && q.packet.ssrc == r.packet.ssrc && q.serial < r.serial ==>
                  q in Overtaken(w, s))
  {
    hide Neat, Kempt, Young, Parcels, At, KindOf, Waiting, Next;
    var r := FedBy(w, s).value;
    FeedsOnce(w, s);
    assert Outstanding(w, r);
    if Outstanding(Next(w, s), q) {
      match s {
        case GateFeed => GateFeeds(w, s, q); GateIsOfOne(w);
        case FeedHeld => HandFeeds(w, s, q); HandIsOfOne(w);
        case FeedFresh => FreshFeeds(w, s, q);
      }
    }
    if q in Overtaken(w, s) {
      OvertakenIsEarlier(w, s, q);
    }
  }

  lemma GateIsOfOne(w: World)
    requires Neat(w)
    ensures forall p | p in GateRest(w) :: p.packet.ssrc == GateSsrc(w)
  {
    hide Rising, Kempt, ShelfNeat;
  }

  lemma HandIsOfOne(w: World)
    requires Neat(w)
    ensures forall p | p in HandRest(w) :: p.packet.ssrc == HandSsrc(w)
  {
    hide Rising, Kempt, ShelfNeat;
  }

  lemma FeedsOnce(w: World, s: Step)
    requires Neat(w) && Enabled(w, s) && FedBy(w, s).Some?
    ensures !Outstanding(Next(w, s), FedBy(w, s).value)
  {
    hide Neat, Next, Outstanding, KindOf;
    var r := FedBy(w, s).value;
    if Outstanding(Next(w, s), r) {
      match s {
        case GateFeed => GateFeeds(w, s, r);
        case FeedHeld => HandFeeds(w, s, r);
        case FeedFresh => FreshFeeds(w, s, r);
      }
    }
  }

  lemma OvertakenIsEarlier(w: World, s: Step, q: Parcel)
    requires Neat(w) && Enabled(w, s) && q in Overtaken(w, s)
    ensures var r := FedBy(w, s).value;
            Outstanding(w, q) && q.packet.ssrc == r.packet.ssrc && q.serial < r.serial
  {
    hide Kempt, Rising, Young, Parcels, At, KindOf, ShelfNeat;
    LineIsBehind(w);
    if s.FeedFresh? && q in Waiting(w, HandSsrc(w)) {
      WaitingOfSsrc(w, HandSsrc(w), q);
      WaitingIsBehind(w, q);
    }
  }

  lemma WaitingOfSsrc(w: World, ssrc: nat, q: Parcel)
    requires Neat(w) && q in Waiting(w, ssrc)
    ensures q.packet.ssrc == ssrc
  {
    hide Kempt, Rising, Young, Parcels, Old;
    WaitingIsHeld(w, ssrc);
    var h :| h in At(w.shelf, ssrc) && h.parcel == q;
  }

  // ----- The order of arrival, over whole runs -----

  /** Of each SSRC, packets were fed in the order of arrival. */
  ghost predicate InArrivalOrder(fed: seq<Parcel>) {
    forall i, k | 0 <= i < k < |fed| && fed[i].packet.ssrc == fed[k].packet.ssrc :: fed[i].serial < fed[k].serial
  }

  /** Everything overtaken in a run. */
  ghost function AllOvertaken(w: World, steps: seq<Step>): set<Parcel>
    decreases |steps|
  {
    if steps == [] then {} else
      AllOvertaken(w, steps[..|steps| - 1]) + Overtaken(After(w, steps[..|steps| - 1]), steps[|steps| - 1])
  }

  /** Nothing fed is outstanding, and what is outstanding behind something fed was overtaken. */
  ghost predicate Behind(w: World, over: set<Parcel>) {
    && (forall p | p in w.fed :: !Outstanding(w, p))
    && (forall p, q | p in w.fed && Outstanding(w, q) && q.packet.ssrc == p.packet.ssrc && q.serial < p.serial ::
          q in over)
  }

  /** Packets fed out of order had been overtaken. */
  ghost predicate Explained(fed: seq<Parcel>, over: set<Parcel>) {
    forall i, k | 0 <= i < k < |fed| ::
      fed[i] != fed[k]
      && (fed[i].packet.ssrc == fed[k].packet.ssrc && fed[k].serial <= fed[i].serial ==> fed[k] in over)
  }

  /** A packet overtaken was so by one that was fed before it. */
  ghost predicate Witnessed(fed: seq<Parcel>, o: Parcel, i: nat) {
    i < |fed| && fed[i].packet.ssrc == o.packet.ssrc && o.serial < fed[i].serial && o !in fed[..i + 1]
  }

  ghost predicate AllWitnessed(fed: seq<Parcel>, over: set<Parcel>) {
    forall o | o in over :: exists i :: Witnessed(fed, o, i)
  }

  ghost predicate Accounted(w: World, over: set<Parcel>) {
    Behind(w, over) && Explained(w.fed, over) && AllWitnessed(w.fed, over)
  }

  lemma QuietStepAccounts(w: World, s: Step, over: set<Parcel>)
    requires Neat(w) && Enabled(w, s) && FedBy(w, s).None? && Accounted(w, over)
    ensures Accounted(Next(w, s), over)
  {
    hide Neat, Next, Outstanding, FedBy;
    FedGrows(w, s);
    assert w.fed + [] == w.fed;
    var v := Next(w, s);
    forall q | Outstanding(v, q)
      ensures q !in w.fed
      ensures forall p | p in w.fed && q.packet.ssrc == p.packet.ssrc && q.serial < p.serial :: q in over
    {
      OutstandingShrinks(w, s, q);
      if !Outstanding(w, q) {
        FedIsOlder(w);
      }
    }
  }

  lemma FedIsOlder(w: World)
    requires Neat(w)
    ensures forall p | p in w.fed :: p.serial < |w.arrivals|
  {
    hide Kempt, ShelfNeat, Line;
  }

  lemma FeedKeepsBehind(w: World, s: Step, over: set<Parcel>)
    requires Neat(w) && Enabled(w, s) && FedBy(w, s).Some? && Accounted(w, over)
    ensures Behind(Next(w, s), over + Overtaken(w, s))
  {
    hide Neat, Next, Outstanding, FedBy, Overtaken, Explained, AllWitnessed;
    var r := FedBy(w, s).value;
    var v := Next(w, s);
    FedGrows(w, s);
    OvertakenExactly(w, s, r);
    forall q | Outstanding(v, q)
      ensures q !in v.fed
      ensures forall p | p in v.fed && q.packet.ssrc == p.packet.ssrc && q.serial < p.serial ::
                q in over + Overtaken(w, s)
    {
      OutstandingShrinks(w, s, q);
      OvertakenExactly(w, s, q);
      assert !s.Arrive? by { ArrivalFeedsNothing(w, s); }
    }
  }

  lemma ArrivalFeedsNothing(w: World, s: Step)
    ensures s.Arrive? ==> FedBy(w, s).None?
  {
  }

  lemma FeedExplains(w: World, s: Step, over: set<Parcel>)
    requires Neat(w) && Enabled(w, s) && FedBy(w, s).Some? && Accounted(w, over)
    ensures Explained(Next(w, s).fed, over + Overtaken(w, s))
  {
    hide Neat, Next, Outstanding, FedBy, Overtaken, AllWitnessed;
    var r := FedBy(w, s).value;
    FedGrows(w, s);
    OvertakenExactly(w, s, r);
    var fed := Next(w, s).fed;
    forall i | 0 <= i < |w.fed|
      ensures fed[i] != r
      ensures fed[i].packet.ssrc == r.packet.ssrc && r.serial <= fed[i].serial ==> r in over
    {
      assert fed[i] in w.fed;
      if r.serial == fed[i].serial {
        SameNumber(w, fed[i], r);
      }
    }
  }

  /** A number belongs to one packet. */
  lemma SameNumber(w: World, p: Parcel, q: Parcel)
    requires Neat(w) && p in w.fed && Outstanding(w, q) && p.serial == q.serial
    ensures p == q
  {
    hide Kempt, ShelfNeat, Line, Outstanding;
    OutstandingFacts(w, q);
  }

  lemma FeedWitnesses(w: World, s: Step, over: set<Parcel>)
    requires Neat(w) && Enabled(w, s) && FedBy(w, s).Some? && Accounted(w, over)
    ensures AllWitnessed(Next(w, s).fed, over + Overtaken(w, s))
  {
    hide Neat, Next, Outstanding, FedBy, Overtaken, Explained;
    var r := FedBy(w, s).value;
    FedGrows(w, s);
    var fed := Next(w, s).fed;
    forall o | o in over + Overtaken(w, s)
      ensures exists i :: Witnessed(fed, o, i)
    {
      if o in over {
        var i :| Witnessed(w.fed, o, i);
        assert fed[..i + 1] == w.fed[..i + 1];
        assert Witnessed(fed, o, i);
      } else {
        OvertakenExactly(w, s, o);
        assert fed[..|w.fed| + 1] == w.fed + [r];
        assert Witnessed(fed, o, |w.fed|);
      }
    }
  }

  /** Every run keeps the lines, and the record of what was overtaken. */
  lemma {:induction false} RunIsAccounted(clock: real, steps: seq<Step>)
    requires ValidRun(Start(clock), steps)
    ensures Neat(After(Start(clock), steps))
    ensures Accounted(After(Start(clock), steps), AllOvertaken(Start(clock), steps))
    decreases |steps|
  {
    hide Next, Enabled, Neat, Accounted, Overtaken;
    if steps == [] {
      StartIsNeat(clock);
    } else {
      var n := |steps| - 1;
      var w := After(Start(clock), steps[..n]);
      var over := AllOvertaken(Start(clock), steps[..n]);
      RunIsAccounted(clock, steps[..n]);
      StepKeepsNeat(w, steps[n]);
      if FedBy(w, steps[n]).None? {
        QuietStepAccounts(w, steps[n], over);
        assert over + Overtaken(w, steps[n]) == over by { QuietOvertakesNothing(w, steps[n]); }
      } else {
        FeedKeepsBehind(w, steps[n], over);
        FeedExplains(w, steps[n], over);
        FeedWitnesses(w, steps[n], over);
        AccountedByParts(Next(w, steps[n]), over + Overtaken(w, steps[n]));
      }
    }
  }

  lemma AccountedByParts(w: World, over: set<Parcel>)
    requires Behind(w, over) && Explained(w.fed, over) && AllWitnessed(w.fed, over)
    ensures Accounted(w, over)
  {
  }

  lemma QuietOvertakesNothing(w: World, s: Step)
    ensures FedBy(w, s).None? ==> Overtaken(w, s) == {}
  {
  }

  lemma StartIsNeat(clock: real)
    ensures Neat(Start(clock)) && Accounted(Start(clock), {})
  {
  }

  /** Over every interleaving of the two threads: the packets of each SSRC are fed in the order of arrival if and only
      if none that was overtaken is fed later. A step overtakes exactly when the receive thread feeds a packet while
      the gateway has packets of that SSRC in its hands, or feeds a fresh one while young ones are held. */
  lemma OrderIsKeptExactly(clock: real, steps: seq<Step>)
    requires ValidRun(Start(clock), steps)
    ensures var fed := After(Start(clock), steps).fed;
            InArrivalOrder(fed) <==> forall p | p in AllOvertaken(Start(clock), steps) :: p !in fed
  {
    hide ValidRun, After, Neat, Behind, AllOvertaken;
    RunIsAccounted(clock, steps);
    var fed, over := After(Start(clock), steps).fed, AllOvertaken(Start(clock), steps);
    if o :| o in over && o in fed {
      var i :| Witnessed(fed, o, i);
      var k: nat :| k < |fed| && fed[k] == o;
      FedLaterIsOutOfOrder(fed, o, i, k);
    }
  }

  lemma FedLaterIsOutOfOrder(fed: seq<Parcel>, o: Parcel, i: nat, k: nat)
    requires Witnessed(fed, o, i) && k < |fed| && fed[k] == o
    ensures !InArrivalOrder(fed)
  {
    var head := fed[..i + 1];
    assert forall j | 0 <= j < |head| :: head[j] in head && head[j] == fed[j];
  }

  /** Over every interleaving no packet is fed twice. */
  lemma FedOnce(clock: real, steps: seq<Step>)
    requires ValidRun(Start(clock), steps)
    ensures var fed := After(Start(clock), steps).fed;
            forall i, k | 0 <= i < k < |fed| :: fed[i].serial != fed[k].serial
  {
    hide ValidRun, After, Behind, AllWitnessed, AllOvertaken, Kempt, ShelfNeat, Line;
    RunIsAccounted(clock, steps);
    var w := After(Start(clock), steps);
    forall i, k | 0 <= i < k < |w.fed|
      ensures w.fed[i].serial != w.fed[k].serial
    {
      assert w.fed[i] in w.fed && w.fed[k] in w.fed;
      assert w.fed[i] != w.fed[k];
    }
  }

  // ----- Conservation -----

  /** Everything ever queued was flushed, or dropped for one of three reasons, or is held, or is in somebody's hands. */
  ghost predicate Balanced(w: World) {
    w.tally.queued == w.tally.flushed + w.tally.nonAudio + w.tally.expired + w.tally.overflow + Total(w.shelf)
                      + |GateRest(w)| + |HandRest(w)|
  }

  lemma {:induction false} ParcelsCount(queue: seq<Held>)
    ensures |Parcels(queue)| == |queue|
  {
    if queue != [] {
      ParcelsCount(queue[1..]);
    }
  }

  lemma TakenCounts(m: Shelf, ssrc: nat, now: real)
    ensures var (n, rest) := Taken(m, ssrc, now); Total(n) + |rest| == Total(Expired(m, now))
  {
    hide Young, Parcels, Total;
    TotalWith(Expired(m, now), ssrc, []);
    ExpiredAt(m, now, ssrc);
    ParcelsCount(Young(At(m, ssrc), now));
  }

  lemma QueuedCounts(m: Shelf, p: Parcel, now: real)
    ensures var longer := Joining(m, p, now);
            Total(Queued(m, p, now)) + (|longer| - |Capped(longer)|) == Total(Expired(m, now)) + 1
  {
    hide Young, Total, Capped;
    TotalWith(Expired(m, now), p.packet.ssrc, Capped(Joining(m, p, now)));
    ExpiredAt(m, now, p.packet.ssrc);
  }

  lemma StepKeepsBalance(w: World, s: Step)
    requires Enabled(w, s) && Balanced(w)
    ensures Balanced(Next(w, s))
  {
    hide Total, Expired, Taken, Queued, Joining, Capped, KindOf;
    ExpiryShrinks(w.shelf, w.clock);
    match s {
      case GateTake(ssrc) => TakenCounts(w.shelf, ssrc, w.clock);
      case Take => TakenCounts(w.shelf, HandSsrc(w), w.clock);
      case Hold(silent) => QueuedCounts(w.shelf, w.hand.parcel, w.clock);
      case _ =>
    }
  }

  /** Over every interleaving the counters add up, packets in the threads' hands included. */
  lemma {:induction false} RunBalances(clock: real, steps: seq<Step>)
    requires ValidRun(Start(clock), steps)
    ensures Balanced(After(Start(clock), steps))
    decreases |steps|
  {
    hide Next, Enabled;
    if steps == [] {
      assert Total(map[]) == 0;
    } else {
      RunBalances(clock, steps[..|steps| - 1]);
      StepKeepsBalance(After(Start(clock), steps[..|steps| - 1]), steps[|steps| - 1]);
    }
  }

  // ----- Overtaking does happen -----

  const EARLY: Datagram := Datagram(0, 7, 1)
  const LATE: Datagram := Datagram(1, 7, 2)

  /** The first packet of an SSRC is held back, and the gateway learns whose it is. */
  const HELD: seq<Step> := [Arrive(EARLY), FirstTest, SecondTest, Hold(false), Learn(7), Classify(7, "audio")]

  /** The gateway takes it off the shelf; before it feeds it, a second packet passes both tests; then it feeds it. */
  const RACE: seq<Step> :=
    [GateTake(7), Arrive(LATE), FirstTest, Take, FeedHeld, SecondTest, FeedFresh, GateFeed]

  /** `steps` lead to `w`, overtaking `over`. */
  ghost predicate Reaches(steps: seq<Step>, w: World, over: set<Parcel>) {
    && ValidRun(Start(0.0), steps) && After(Start(0.0), steps) == w
    && AllOvertaken(Start(0.0), steps) == over
  }

  lemma Begins()
    ensures Reaches([], Start(0.0), {})
  {
  }

  lemma OneStepOn(steps: seq<Step>, w: World, over: set<Parcel>, s: Step)
    requires Reaches(steps, w, over) && Enabled(w, s)
    ensures Reaches(steps + [s], Next(w, s), over + Overtaken(w, s))
  {
    hide Next, Enabled, Overtaken;
    assert (steps + [s])[..|steps + [s]| - 1] == steps;
  }

  /** A step that feeds nothing. */
  lemma QuietStepOn(steps: seq<Step>, w: World, over: set<Parcel>, s: Step, v: World)
    requires Reaches(steps, w, over) && Enabled(w, s) && FedBy(w, s).None? && v == Next(w, s)
    ensures Reaches(steps + [s], v, over)
  {
    hide Next, Enabled, Reaches, FedBy;
    OneStepOn(steps, w, over, s);
    assert over + Overtaken(w, s) == over;
  }

  lemma HeldRuns()
    ensures Reaches(HELD, World({7}, map[7 := "audio"], 0.0, map[7 := [Held(Parcel(0, EARLY), 0.0)]],
                                Tally(1, 0, 0, 0, 0), Free, Ready, [], [EARLY]), {})
  {
    hide Reaches, HeldBack;
    var w0, p := Start(0.0), Parcel(0, EARLY);
    var w1 := w0.(hand := Arrived(p), arrivals := [EARLY]);
    var w2, w3 := w1.(hand := Between(p)), w1.(hand := Stranger(p));
    var w4 := w1.(shelf := map[7 := [Held(p, 0.0)]], hand := Ready, tally := Tally(1, 0, 0, 0, 0));
    var w5 := w4.(known := {7});
    var w6 := w5.(kinds := map[7 := "audio"]);
    Begins();
    QuietStepOn([], w0, {}, Arrive(EARLY), w1);
    var t := [] + [Arrive(EARLY)];
    QuietStepOn(t, w1, {}, FirstTest, w2);
    QuietStepOn(t + [FirstTest], w2, {}, SecondTest, w3);
    t := t + [FirstTest] + [SecondTest];
    HoldsFirst(w3, p);
    QuietStepOn(t, w3, {}, Hold(false), w4);
    QuietStepOn(t + [Hold(false)], w4, {}, Learn(7), w5);
    t := t + [Hold(false)] + [Learn(7)];
    QuietStepOn(t, w5, {}, Classify(7, "audio"), w6);
    assert t + [Classify(7, "audio")] == HELD;
  }

  lemma HoldsFirst(w: World, p: Parcel)
    requires w.shelf == map[] && w.hand == Stranger(p) && KindOf(w, p.packet.ssrc) == "unknown"
    ensures Next(w, Hold(false))
         == w.(shelf := map[p.packet.ssrc := [Held(p, w.clock)]], hand := Ready,
               tally := w.tally.(queued := w.tally.queued + 1))
  {
    assert Expired(map[], w.clock) == map[];
    assert Joining(map[], p, w.clock) == [Held(p, w.clock)];
  }

  /** A run in which the later packet is fed first, although its user was known at both tests. */
  lemma OvertakingHappens()
    ensures ValidRun(Start(0.0), HELD + RACE)
    ensures After(Start(0.0), HELD + RACE).fed == [Parcel(1, LATE), Parcel(0, EARLY)]
    ensures !InArrivalOrder(After(Start(0.0), HELD + RACE).fed)
    ensures Parcel(0, EARLY) in AllOvertaken(Start(0.0), HELD + RACE)
  {
    hide ValidRun, After, AllOvertaken;
    var p, q := Parcel(0, EARLY), Parcel(1, LATE);
    RaceRuns(World({7}, map[7 := "audio"], 0.0, map[7 := [Held(p, 0.0)]], Tally(1, 0, 0, 0, 0),
                   Free, Ready, [], [EARLY]));
    var fed := [q, p];
    assert fed[1].serial < fed[0].serial;
  }

  lemma RaceRuns(w: World)
    requires w == World({7}, map[7 := "audio"], 0.0, map[7 := [Held(Parcel(0, EARLY), 0.0)]], Tally(1, 0, 0, 0, 0),
                        Free, Ready, [], [EARLY])
    ensures Reaches(HELD + RACE,
                    w.(shelf := map[], tally := Tally(1, 1, 0, 0, 0), fed := [Parcel(1, LATE), Parcel(0, EARLY)],
                       gate := Flushing(7, []), arrivals := [EARLY, LATE]), {Parcel(0, EARLY)})
  {
    hide Reaches, HeldBack, Taken, Counted, Waiting;
    var p, q := Parcel(0, EARLY), Parcel(1, LATE);
    var w1 := w.(shelf := map[], gate := Flushing(7, [p]));
    var w2 := w1.(hand := Arrived(q), arrivals := [EARLY, LATE]);
    var w3, w4, w5 := w2.(hand := Expected(q)), w2.(hand := Draining(q, [])), w2.(hand := Between(q));
    HeldRuns();
    TakesOne(w, p);
    QuietStepOn(HELD, w, {}, GateTake(7), w1);
    var t := HELD + [GateTake(7)];
    QuietStepOn(t, w1, {}, Arrive(LATE), w2);
    QuietStepOn(t + [Arrive(LATE)], w2, {}, FirstTest, w3);
    t := t + [Arrive(LATE)] + [FirstTest];
    TakesNothing(w3);
    QuietStepOn(t, w3, {}, Take, w4);
    QuietStepOn(t + [Take], w4, {}, FeedHeld, w5);
    t := t + [Take] + [FeedHeld];
    LastSteps(t, w5);
    assert t + [SecondTest] + [FeedFresh] + [GateFeed] == HELD + RACE;
  }

  lemma LastSteps(t: seq<Step>, w: World)
    requires Reaches(t, w, {}) && w.known == {7} && w.kinds == map[7 := "audio"] && w.shelf == map[]
    requires w.gate == Flushing(7, [Parcel(0, EARLY)]) && w.hand == Between(Parcel(1, LATE)) && w.fed == []
    ensures Reaches(t + [SecondTest] + [FeedFresh] + [GateFeed],
                    w.(hand := Ready, fed := [Parcel(1, LATE), Parcel(0, EARLY)], gate := Flushing(7, []),
                       tally := w.tally.(flushed := w.tally.flushed + 1)), {Parcel(0, EARLY)})
  {
    hide Reaches, HeldBack, Taken, Counted;
    var p, q := Parcel(0, EARLY), Parcel(1, LATE);
    var w1 := w.(hand := Due(q));
    var w2 := w.(hand := Ready, fed := [q]);
    var w3 := w2.(fed := [q, p], gate := Flushing(7, []), tally := w.tally.(flushed := w.tally.flushed + 1));
    QuietStepOn(t, w, {}, SecondTest, w1);
    OneStepOn(t + [SecondTest], w1, {}, FeedFresh);
    NothingYoung(w1.clock);
    assert {} + Overtaken(w1, FeedFresh) == {p};
    assert Next(w1, FeedFresh) == w2;
    OneStepOn(t + [SecondTest] + [FeedFresh], w2, {p}, GateFeed);
    assert [p][1..] == [] && [q] + [p] == [q, p] && {p} + Overtaken(w2, GateFeed) == {p};
    assert Next(w2, GateFeed) == w3;
  }

  lemma TakesOne(w: World, p: Parcel)
    requires w.shelf == map[7 := [Held(p, w.clock)]]
    ensures Taken(w.shelf, 7, w.clock) == (map[], [p]) && Counted(w) == w.tally
  {
    var queue := [Held(p, w.clock)];
    AllYoung(queue, w.clock);
    assert Parcels(queue) == [p] by {
      assert queue[1..] == [];
    }
    assert Expired(w.shelf, w.clock) == w.shelf;
    assert w.shelf - {7} == map[];
  }

  lemma TakesNothing(w: World)
    requires w.shelf == map[] && w.hand.Expected?
    ensures Next(w, Take) == w.(hand := Draining(w.hand.parcel, []))
  {
    assert Expired(w.shelf, w.clock) == w.shelf == w.shelf - {w.hand.parcel.packet.ssrc};
  }
}
