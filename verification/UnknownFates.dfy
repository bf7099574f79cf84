/** What becomes of each packet that is routed while senders are unknown, and of each that is held back. */
module UnknownFates {
  import opened UnknownQueue
  import opened UnknownRuns
  import opened UnknownSenders

  // ----- The shelf -----

  /** Of a queue that is oldest first, exactly a front is too old. */
  lemma {:induction false} YoungIsTheRest(queue: seq<Held>, now: real) returns (k: nat)
    requires Ordered(queue)
    ensures k <= |queue| && Young(queue, now) == queue[k..]
    ensures forall i | 0 <= i < |queue| :: i < k <==> now - queue[i].queuedAt > 0.5
  {
    hide Young;
    if queue == [] || now - queue[0].queuedAt <= 0.5 {
      k := 0;
      forall i | 0 <= i < |queue|
        ensures now - queue[i].queuedAt <= 0.5
      {
        assert i > 0 ==> Ahead(queue[0], queue[i]);
      }
      FirstIsOldest(queue, now);
    } else {
      TailKeepsOrder(queue);
      k := YoungIsTheRest(queue[1..], now);
      YoungDropsFirst(queue, now);
      assert queue[1..][k..] == queue[k + 1..];
      forall i | 0 <= i < |queue|
        ensures i < k + 1 <==> now - queue[i].queuedAt > 0.5
      {
        assert i > 0 ==> queue[i] == queue[1..][i - 1];
      }
      k := k + 1;
    }
  }

  lemma YoungDropsFirst(queue: seq<Held>, now: real)
    requires queue != [] && now - queue[0].queuedAt > 0.5
    ensures Young(queue, now) == Young(queue[1..], now)
  {
  }

  /** Held for no more than half a second. */
  predicate StillHeld(h: Held, now: real) {
    now - h.queuedAt <= 0.5
  }

  /** Taking packets off the shelf takes exactly those of the SSRC that are young; of the others the young ones stay. */
  lemma TakenExactly(m: Shelf, ssrc: nat, now: real)
    ensures var (n, rest) := Taken(m, ssrc, now);
            && At(n, ssrc) == []
            && (forall other, h | other != ssrc :: h in At(n, other) <==> h in At(m, other) && StillHeld(h, now))
            && (forall p :: p in rest <==> exists h :: h in At(m, ssrc) && StillHeld(h, now) && h.parcel == p)
            && (Ordered(At(m, ssrc)) ==> Rising(rest))
  {
    hide Young, Parcels, At, Ordered, Rising;
    var (n, rest) := Taken(m, ssrc, now);
    TakenWaits(m, ssrc, now, ssrc);
    YoungPart(At(m, ssrc), now);
    assert At(n, ssrc) == [] by { WithoutComesFrom(Expired(m, now), ssrc); }
    YoungStay(m, ssrc, now);
    forall p
      ensures p in rest <==> exists h :: h in At(m, ssrc) && StillHeld(h, now) && h.parcel == p
    {
      ParcelsOf(Young(At(m, ssrc), now), p);
    }
    if Ordered(At(m, ssrc)) {
      YoungKeepsOrder(At(m, ssrc), now);
      ParcelsRise(Young(At(m, ssrc), now));
    }
  }

  lemma YoungStay(m: Shelf, ssrc: nat, now: real)
    ensures forall other, h | other != ssrc ::
              h in At(Taken(m, ssrc, now).0, other) <==> h in At(m, other) && StillHeld(h, now)
  {
    hide Taken, Young, At;
    forall other, h | other != ssrc
      ensures h in At(Taken(m, ssrc, now).0, other) <==> h in At(m, other) && StillHeld(h, now)
    {
      TakenOthers(m, ssrc, now, other);
      YoungPart(At(m, other), now);
    }
  }

  lemma TakenOthers(m: Shelf, ssrc: nat, now: real, other: nat)
    requires other != ssrc
    ensures At(Taken(m, ssrc, now).0, other) == Young(At(m, other), now)
  {
    hide Young;
    ExpiredAt(m, now, other);
  }

  /** Holding a packet back: of the young packets of its SSRC and itself, the newest 32 are held. */
  lemma QueuedExactly(m: Shelf, p: Parcel, now: real) returns (k: nat)
    requires Ordered(At(m, p.packet.ssrc))
    ensures var before, after := At(m, p.packet.ssrc), At(Queued(m, p, now), p.packet.ssrc);
            && k <= |before| && (forall i | 0 <= i < |before| :: i < k <==> now - before[i].queuedAt > 0.5)
            && 1 <= |after| == (if |before| - k + 1 > 32 then 32 else |before| - k + 1)
            && after == (before + [Held(p, now)])[|before| + 1 - |after|..]
    ensures forall other, h | other != p.packet.ssrc ::
              h in At(Queued(m, p, now), other) <==> h in At(m, other) && StillHeld(h, now)
  {
    hide Young, At, Ordered, Expired;
    var before := At(m, p.packet.ssrc);
    k := YoungIsTheRest(before, now);
    assert before[k..] + [Held(p, now)] == (before + [Held(p, now)])[k..];
    AtOnly(Expired(m, now), p.packet.ssrc, Capped(Joining(m, p, now)));
    forall other, h | other != p.packet.ssrc
      ensures h in At(Queued(m, p, now), other) <==> h in At(m, other) && StillHeld(h, now)
    {
      ExpiredAt(m, now, other);
      YoungPart(At(m, other), now);
    }
  }

  lemma AtOnly(m: Shelf, ssrc: nat, queue: seq<Held>)
    ensures At(m[ssrc := queue], ssrc) == queue
    ensures forall other | other != ssrc :: At(m[ssrc := queue], other) == At(m, other)
  {
  }

  // ----- Steps -----

  /** Flushing: a packet is fed exactly if its SSRC carries audio, and counted as one or the other. */
  lemma FlushExactly(w: World, s: Step)
    requires Enabled(w, s) && (s.GateFeed? || s.FeedHeld?)
    requires (if s.GateFeed? then w.gate.rest else w.hand.rest) != []
    ensures var rest := if s.GateFeed? then w.gate.rest else w.hand.rest;
            var v := Next(w, s);
            var audio := rest[0].packet.ssrc in w.kinds && w.kinds[rest[0].packet.ssrc] == "audio";
            && v.fed == w.fed + (if audio then [rest[0]] else [])
            && v.tally == w.tally.(flushed := w.tally.flushed + (if audio then 1 else 0),
                                   nonAudio := w.tally.nonAudio + (if audio then 0 else 1))
            && v.shelf == w.shelf
            && (if s.GateFeed? then v.gate == Flushing(w.gate.ssrc, rest[1..]) && v.hand == w.hand
                else v.hand == Draining(w.hand.parcel, rest[1..]) && v.gate == w.gate)
  {
  }

  /** Holding back: exactly if the packet is not silence and the kind of its SSRC is not known; what is counted. */
  lemma HoldExactly(w: World, s: Step)
    requires Neat(w) && Enabled(w, s) && s.Hold?
    ensures var p, v := w.hand.parcel, Next(w, s);
            var ssrc := p.packet.ssrc;
            var holds := !s.silent && (ssrc !in w.kinds || w.kinds[ssrc] == "unknown");
            var t, u := w.tally, v.tally;
            && v.fed == w.fed && v.hand == Ready && v.gate == w.gate
            && (!holds ==> v.shelf == w.shelf && u == t)
            && (holds ==> v.shelf == Queued(w.shelf, p, w.clock))
            && (holds ==> u.flushed == t.flushed && u.nonAudio == t.nonAudio && u.queued == t.queued + 1
                          && u.expired - t.expired + u.overflow - t.overflow == Total(w.shelf) + 1 - Total(v.shelf)
                          && u.overflow - t.overflow == if |Waiting(w, ssrc)| + 1 > 32 then 1 else 0)
  {
    hide Total, Expired, Kempt, ShelfNeat, Line, Before, BeforeShelf, AllGenuine, Young, Queued;
    if !s.silent && KindOf(w, w.hand.parcel.packet.ssrc) == "unknown" {
      QueuedCounts(w.shelf, w.hand.parcel, w.clock);
      ExpiryShrinks(w.shelf, w.clock);
      ParcelsCount(Young(At(w.shelf, w.hand.parcel.packet.ssrc), w.clock));
      AtMost32(w);
    }
  }

  lemma AtMost32(w: World)
    requires Kempt(w.shelf, w.clock)
    ensures forall ssrc :: |Young(At(w.shelf, ssrc), w.clock)| <= 32
  {
    hide Young;
    forall ssrc
      ensures |Young(At(w.shelf, ssrc), w.clock)| <= 32
    {
      YoungPart(At(w.shelf, ssrc), w.clock);
    }
  }

  // ----- Whole runs -----

  ghost function StateAt(clock: real, steps: seq<Step>, k: nat): World
    requires k <= |steps|
  {
    After(Start(clock), steps[..k])
  }

  lemma StepAt(clock: real, steps: seq<Step>, k: nat)
    requires ValidRun(Start(clock), steps) && k < |steps|
    ensures Enabled(StateAt(clock, steps, k), steps[k])
    ensures StateAt(clock, steps, k + 1) == Next(StateAt(clock, steps, k), steps[k])
  {
    hide Next, Enabled;
    RunPrefix(Start(clock), steps, k + 1);
    assert steps[..k + 1][..k] == steps[..k];
  }

  lemma {:induction false} RunPrefix(w: World, steps: seq<Step>, k: nat)
    requires ValidRun(w, steps) && k <= |steps|
    ensures ValidRun(w, steps[..k])
    decreases |steps|
  {
    hide Enabled;
    if k < |steps| {
      RunPrefix(w, steps[..|steps| - 1], k);
      assert steps[..|steps| - 1][..k] == steps[..k];
    } else {
      assert steps[..k] == steps;
    }
  }

  /** Step `m` was the last own step of the receive thread before `k`, and was `s`, with `p` in its hands. */
  ghost predicate LastOwn(clock: real, steps: seq<Step>, m: nat, k: nat, s: Step, p: Parcel)
    requires k <= |steps|
  {
    && m < k && steps[m] == s
    && !StateAt(clock, steps, m).hand.Ready? && StateAt(clock, steps, m).hand.parcel == p
    && forall i | m < i < k :: !OfReceiver(steps[i])
  }

  lemma OthersKeepTheHand(w: World, s: Step)
    requires !OfReceiver(s)
    ensures Next(w, s).hand == w.hand
  {
  }

  ghost predicate KnownAt(clock: real, steps: seq<Step>, m: nat, ssrc: nat)
    requires m <= |steps|
  {
    ssrc in StateAt(clock, steps, m).known
  }

  /** Whether the receive thread goes on to feed a packet or not was decided by its second test. */
  lemma {:induction false} HandIsDecided(clock: real, steps: seq<Step>, k: nat)
    requires ValidRun(Start(clock), steps) && k <= |steps|
    requires var hand := StateAt(clock, steps, k).hand; hand.Due? || hand.Stranger?
    ensures var hand := StateAt(clock, steps, k).hand;
            exists m :: && LastOwn(clock, steps, m, k, SecondTest, hand.parcel)
                        && (hand.Due? <==> KnownAt(clock, steps, m, hand.parcel.packet.ssrc))
  {
    hide Next, Enabled, ValidRun, After;
    if k == 0 {
      assert steps[..0] == [];
      NothingInHand(clock);
    } else {
      var w := StateAt(clock, steps, k - 1);
      StepAt(clock, steps, k - 1);
      if OfReceiver(steps[k - 1]) {
        DecidedNow(w, steps[k - 1]);
        var hand := StateAt(clock, steps, k).hand;
        assert LastOwn(clock, steps, k - 1, k, SecondTest, hand.parcel);
      } else {
        OthersKeepTheHand(w, steps[k - 1]);
        HandIsDecided(clock, steps, k - 1);
        var m :| && LastOwn(clock, steps, m, k - 1, SecondTest, w.hand.parcel)
                 && (w.hand.Due? <==> KnownAt(clock, steps, m, w.hand.parcel.packet.ssrc));
        assert LastOwn(clock, steps, m, k, SecondTest, w.hand.parcel);
      }
    }
  }

  lemma NothingInHand(clock: real)
    ensures After(Start(clock), []).hand == Ready
  {
  }

  lemma DecidedNow(w: World, s: Step)
    requires Enabled(w, s) && OfReceiver(s) && (Next(w, s).hand.Due? || Next(w, s).hand.Stranger?)
    ensures s == SecondTest && !w.hand.Ready? && Next(w, s).hand.parcel == w.hand.parcel
    ensures Next(w, s).hand.Due? <==> w.hand.parcel.packet.ssrc in w.known
  {
    hide Counted, Taken, HeldBack;
  }

  /** Over every run: the packet being routed is fed at once exactly if its user was known at the second test, the last
      thing the receive thread did before. */
  lemma FreshIsFedExactly(clock: real, steps: seq<Step>, k: nat)
    requires ValidRun(Start(clock), steps) && k < |steps| && (steps[k].FeedFresh? || steps[k].Hold?)
    ensures var w, v := StateAt(clock, steps, k), StateAt(clock, steps, k + 1);
            && !w.hand.Ready?
            && (exists m :: && LastOwn(clock, steps, m, k, SecondTest, w.hand.parcel)
                            && (steps[k].FeedFresh? <==> KnownAt(clock, steps, m, w.hand.parcel.packet.ssrc)))
            && v.fed == w.fed + if steps[k].FeedFresh? then [w.hand.parcel] else []
  {
    hide ValidRun, After, Counted, HeldBack, LastOwn, KnownAt;
    StepAt(clock, steps, k);
    HandIsDecided(clock, steps, k);
    FedGrows(StateAt(clock, steps, k), steps[k]);
  }

  /** Whether it flushes was decided by its first test. */
  ghost predicate FlushDecided(clock: real, steps: seq<Step>, k: nat, m: nat, p: Parcel, flushed: bool)
    requires k <= |steps|
  {
    && m < k && steps[m] == FirstTest
    && !StateAt(clock, steps, m).hand.Ready? && StateAt(clock, steps, m).hand.parcel == p
    && (forall i | m < i < k && OfReceiver(steps[i]) :: steps[i].Take? || steps[i].FeedHeld?)
    && (flushed <==> exists i :: m < i < k && steps[i].Take?)
    && (KnownAt(clock, steps, m, p.packet.ssrc) <==> flushed)
  }

  /** Past the first test: about to flush, flushing, or before the second test. */
  ghost predicate PastFirstTest(clock: real, steps: seq<Step>, k: nat, m: nat)
    requires k <= |steps|
  {
    var hand := StateAt(clock, steps, k).hand;
    match hand
    case Expected(p) => LastOwn(clock, steps, m, k, FirstTest, p) && KnownAt(clock, steps, m, p.packet.ssrc)
    case Draining(p, _) => FlushDecided(clock, steps, k, m, p, true)
    case Between(p) => FlushDecided(clock, steps, k, m, p, true) || FlushDecided(clock, steps, k, m, p, false)
    case _ => true
  }

  lemma {:induction false} FirstTestDecides(clock: real, steps: seq<Step>, k: nat)
    requires ValidRun(Start(clock), steps) && k <= |steps|
    ensures exists m :: PastFirstTest(clock, steps, k, m)
  {
    hide Next, Enabled, ValidRun, After, PastFirstTest;
    if k == 0 {
      assert steps[..0] == [];
      NothingInHand(clock);
      assert PastFirstTest(clock, steps, 0, 0) by { ReadyIsPast(clock, steps, 0); }
    } else {
      FirstTestDecides(clock, steps, k - 1);
      var m :| PastFirstTest(clock, steps, k - 1, m);
      StepAt(clock, steps, k - 1);
      if steps[k - 1].FirstTest? {
        FirstTestNow(clock, steps, k - 1);
      } else if OfReceiver(steps[k - 1]) {
        OwnStepOn(clock, steps, k - 1, m);
      } else {
        OtherStepOn(clock, steps, k - 1, m);
      }
    }
  }

  lemma ReadyIsPast(clock: real, steps: seq<Step>, k: nat)
    requires k <= |steps| && StateAt(clock, steps, k).hand == Ready
    ensures PastFirstTest(clock, steps, k, 0)
  {
  }

  lemma FirstTestNow(clock: real, steps: seq<Step>, k: nat)
    requires k < |steps| && steps[k].FirstTest? && Enabled(StateAt(clock, steps, k), steps[k])
    requires StateAt(clock, steps, k + 1) == Next(StateAt(clock, steps, k), steps[k])
    ensures PastFirstTest(clock, steps, k + 1, k)
  {
    hide After;
  }

  lemma OwnStepOn(clock: real, steps: seq<Step>, k: nat, m: nat)
    requires k < |steps| && OfReceiver(steps[k]) && !steps[k].FirstTest? && Enabled(StateAt(clock, steps, k), steps[k])
    requires StateAt(clock, steps, k + 1) == Next(StateAt(clock, steps, k), steps[k])
    requires PastFirstTest(clock, steps, k, m)
    ensures PastFirstTest(clock, steps, k + 1, m)
  {
    hide After, Counted, Taken, HeldBack, KindOf;
    var hand := StateAt(clock, steps, k).hand;
    match steps[k] {
      case Take =>
        assert FlushDecided(clock, steps, k + 1, m, hand.parcel, true);
      case FeedHeld =>
        assert FlushDecided(clock, steps, k, m, hand.parcel, true);
        FlushStays(clock, steps, k, m, hand.parcel, true);
      case _ =>
    }
  }

  lemma FlushStays(clock: real, steps: seq<Step>, k: nat, m: nat, p: Parcel, flushed: bool)
    requires k < |steps| && FlushDecided(clock, steps, k, m, p, flushed)
    requires !OfReceiver(steps[k]) || steps[k].FeedHeld?
    ensures FlushDecided(clock, steps, k + 1, m, p, flushed)
  {
    hide After;
    assert forall i | m < i < k + 1 && steps[i].Take? :: i < k;
  }

  lemma OtherStepOn(clock: real, steps: seq<Step>, k: nat, m: nat)
    requires k < |steps| && !OfReceiver(steps[k])
    requires StateAt(clock, steps, k + 1) == Next(StateAt(clock, steps, k), steps[k])
    requires PastFirstTest(clock, steps, k, m)
    ensures PastFirstTest(clock, steps, k + 1, m)
  {
    hide After, Next, FlushDecided;
    OthersKeepTheHand(StateAt(clock, steps, k), steps[k]);
    var hand := StateAt(clock, steps, k).hand;
    if !hand.Ready? {
      if FlushDecided(clock, steps, k, m, hand.parcel, true) {
        FlushStays(clock, steps, k, m, hand.parcel, true);
      }
      if FlushDecided(clock, steps, k, m, hand.parcel, false) {
        FlushStays(clock, steps, k, m, hand.parcel, false);
      }
    }
  }

  /** Over every run: before its second test the receive thread has flushed what was held of the SSRC exactly if the
      user was known at its first test. */
  lemma FlushesExactly(clock: real, steps: seq<Step>, k: nat)
    requires ValidRun(Start(clock), steps) && k < |steps| && steps[k].SecondTest?
    ensures var w := StateAt(clock, steps, k);
            && !w.hand.Ready?
            && exists m: nat ::
                 && m < k && steps[m] == FirstTest && StateAt(clock, steps, m).hand == Arrived(w.hand.parcel)
                 && (forall i | m < i < k :: !steps[i].FirstTest?)
                 && (KnownAt(clock, steps, m, w.hand.parcel.packet.ssrc) <==> exists i :: m < i < k && steps[i].Take?)
  {
    hide After, Next, ValidRun, KnownAt;
    StepAt(clock, steps, k);
    FirstTestDecides(clock, steps, k);
    var m :| PastFirstTest(clock, steps, k, m);
    StepAt(clock, steps, m);
    var p := StateAt(clock, steps, k).hand.parcel;
    assert StateAt(clock, steps, m).hand == Arrived(p);
  }
}
