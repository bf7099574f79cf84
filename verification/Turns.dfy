/** No overtaking, over whole runs: packets of one SSRC leave in the order in which they were sent. */
module Turns {
  import opened Bytes
  import opened Options
  import opened Dave
  import opened Deferral
  import opened DrainFacts
  import opened BucketFacts
  import opened Placement
  import opened Pipeline
  import opened Bounds
  import opened Rollover
  import DavePayload

  /** `b` never comes before the first `a`. */
  ghost predicate Precedes(ids: seq<nat>, a: nat, b: nat) {
    ids == [] || ids[0] == a || (ids[0] != b && Precedes(ids[1..], a, b))
  }

  lemma {:induction false} PrecedesLonger(s: seq<nat>, t: seq<nat>, a: nat, b: nat)
    requires Precedes(s, a, b) && (a in s || Precedes(t, a, b))
    ensures Precedes(s + t, a, b)
  {
    if s == [] {
      assert s + t == t;
    } else if s[0] != a {
      PrecedesLonger(s[1..], t, a, b);
      assert (s + t)[1..] == s[1..] + t;
    }
  }

  lemma {:induction false} AbsentPrecedes(s: seq<nat>, a: nat, b: nat)
    requires b !in s
    ensures Precedes(s, a, b)
  {
    if s != [] {
      AbsentPrecedes(s[1..], a, b);
    }
  }

  /** What it says about positions. */
  lemma {:induction false} PrecedesMeans(s: seq<nat>, a: nat, b: nat, k: nat)
    requires Precedes(s, a, b) && a != b && k < |s| && s[k] == b
    ensures a in s[..k]
  {
    if s[0] == a {
      assert s[..k][0] == a;
    } else {
      PrecedesMeans(s[1..], a, b, k - 1);
      assert s[1..][..k - 1] == s[..k][1..];
    }
  }

  // ----- One queue -----

  function Waiting(queue: seq<Entry>): seq<nat> {
    if queue == [] then [] else [queue[0].packet.id] + Waiting(queue[1..])
  }

  function Named(ps: seq<Datagram>): seq<nat> {
    if ps == [] then [] else [ps[0].id] + Named(ps[1..])
  }

  lemma {:induction false} NamedIds(ps: seq<Datagram>, id: nat)
    ensures id in Named(ps) <==> id in Ids(ps)
  {
    Nothing();
    if ps != [] {
      assert ps == [ps[0]] + ps[1..];
      IdsCons(ps[0], ps[1..]);
      NamedIds(ps[1..], id);
    }
  }

  lemma {:induction false} NamedOfBoth(p: seq<Datagram>, q: seq<Datagram>)
    ensures Named(p + q) == Named(p) + Named(q)
  {
    if p == [] {
      assert p + q == q;
    } else {
      NamedOfBoth(p[1..], q);
      Joined(p, q);
      Chain([p[0].id], Named(p[1..]), Named(q));
    }
  }

  /** Sending order puts the earlier packet ahead. */
  lemma {:induction false} SentEarlierWaitsAhead(idx: Index, queue: seq<Entry>, a: nat, b: nat)
    requires InSendOrder(idx, queue) && idx(a) < idx(b) && a in IdSet(queue)
    ensures Precedes(Waiting(queue), a, b)
  {
    assert queue == [queue[0]] + queue[1..];
    IdSetCons(queue[0], queue[1..]);
    if queue[0].packet.id != a {
      var k :| 1 <= k < |queue| && queue[k].packet.id == a;
      SentEarlierWaitsAhead(idx, queue[1..], a, b);
    }
  }

  lemma {:induction false} BlockedFreesNothing(env: Env, queue: seq<Entry>)
    ensures Freed(env, queue, true) == []
    decreases |queue|
  {
    if queue != [] {
      BlockedFreesNothing(env, queue[1..]);
    }
  }

  /** While `a` is ahead of `b` in a queue, a drain hands on `b` only after `a`, and not at all if `a` stays. */
  lemma {:induction false} QueueKeepsTurns(env: Env, queue: seq<Entry>, blocked: bool, a: nat, b: nat)
    requires Distinct(queue) && a != b && a in IdSet(queue) && Precedes(Waiting(queue), a, b)
    ensures a in Ids(Freed(env, queue, blocked)) ==> Precedes(Named(Freed(env, queue, blocked)), a, b)
    ensures a in IdSet(Kept(env, queue, blocked)) ==> b !in Ids(Freed(env, queue, blocked))
    decreases |queue|
  {
    hide Judge, IdSet, Ids;
    Nothing();
    var v := Judge(env, queue[0], blocked);
    var c := blocked || v.Retry?;
    var rest := Freed(env, queue[1..], c);
    assert queue == [queue[0]] + queue[1..];
    IdSetCons(queue[0], queue[1..]);
    IdSetCons(queue[0], Kept(env, queue[1..], c));
    IdsCons(queue[0].packet, rest);
    PartsComeFrom(env, queue[1..], c);
    assert ([queue[0].packet] + rest)[1..] == rest;
    if queue[0].packet.id != a {
      assert Waiting(queue)[1..] == Waiting(queue[1..]);
      QueueKeepsTurns(env, queue[1..], c, a, b);
    } else if Stays(v) {
      KeepMeansBlocked(env, queue[0], blocked);
      BlockedFreesNothing(env, queue[1..]);
    }
  }

  lemma KeepMeansBlocked(env: Env, e: Entry, blocked: bool)
    ensures Stays(Judge(env, e, blocked)) ==> blocked || Judge(env, e, blocked).Retry?
  {
  }

  // ----- All queues -----

  lemma {:induction false} BucketsKeepTurns(env: Env, bs: seq<Bucket>, ssrc: nat, a: nat, b: nat)
    requires DistinctAll(bs) && KeysDistinct(bs) && a != b
    requires a in IdSet(QueueOf(bs, ssrc)) && Precedes(Waiting(QueueOf(bs, ssrc)), a, b)
    requires b in AllIds(bs) ==> b in IdSet(QueueOf(bs, ssrc))
    ensures a in Ids(FreedAll(env, bs)) ==> Precedes(Named(FreedAll(env, bs)), a, b)
    ensures a in AllIds(KeptAll(env, bs)) ==> b !in Ids(FreedAll(env, bs))
    decreases |bs|
  {
    hide Kept, Freed, IdSet, Ids, Distinct, Precedes, Waiting, Named, Keys;
    Nothing();
    if bs != [] {
      var queue := bs[0].queue;
      var out, rest := Freed(env, queue, false), FreedAll(env, bs[1..]);
      QueueIsInside(bs[1..], ssrc);
      PartsComeFrom(env, queue, false);
      KeptAllComesFrom(env, bs[1..]);
      IdsOfBoth(out, rest);
      NamedOfBoth(out, rest);
      NamedIds(out, a);
      NamedIds(out, b);
      NamedIds(rest, b);
      if bs[0].ssrc == ssrc {
        QueueKeepsTurns(env, queue, false, a, b);
      } else {
        BucketsKeepTurns(env, bs[1..], ssrc, a, b);
        AbsentPrecedes(Named(out), a, b);
      }
      if Precedes(Named(out), a, b) && (a in Named(out) || Precedes(Named(rest), a, b)) {
        PrecedesLonger(Named(out), Named(rest), a, b);
      }
      var kept := Kept(env, queue, false);
      assert ([Bucket(bs[0].ssrc, kept)] + KeptAll(env, bs[1..]))[1..] == KeptAll(env, bs[1..]);
    }
  }

  /** A waiting packet waits in the queue of its SSRC. */
  lemma {:induction false} EntryOf(bs: seq<Bucket>, id: nat) returns (e: Entry)
    requires Sized(bs) && KeysDistinct(bs) && id in AllIds(bs)
    ensures e in AllEntries(bs) && e.packet.id == id && e in QueueOf(bs, e.packet.ssrc)
    decreases |bs|
  {
    hide Keys, EntrySet;
    assert bs == [bs[0]] + bs[1..];
    KeysCons(bs[0], bs[1..]);
    assert bs[0] in bs;
    if id in IdSet(bs[0].queue) {
      e :| e in bs[0].queue && e.packet.id == id;
      assert e in EntrySet(bs[0].queue) by { InEntrySet(e, bs[0].queue); }
    } else {
      e := EntryOf(bs[1..], id);
      if e.packet.ssrc == bs[0].ssrc {
        AbsentHasNoQueue(bs[1..], e.packet.ssrc);
        assert false;
      }
    }
  }

  lemma InEntrySet(e: Entry, queue: seq<Entry>)
    ensures e in queue <==> e in EntrySet(queue)
  {
  }

  lemma WaitsInOwnQueue(w: World, id: nat)
    requires Orderly(w) && Sized(w.dec.buckets) && id in AllIds(w.dec.buckets)
    ensures id in w.births && id in IdSet(QueueOf(w.dec.buckets, w.births[id].packet.ssrc))
  {
    hide AllEntries, AllIds, DistinctAll, Sized;
    var e := EntryOf(w.dec.buckets, id);
    assert Known(w, e);
  }

  // ----- Runs -----

  function RoutedIds(routed: seq<Routed>): seq<nat> {
    if routed == [] then [] else [routed[0].packet.id] + RoutedIds(routed[1..])
  }

  lemma {:induction false} RoutedIdsOfBoth(p: seq<Routed>, q: seq<Routed>)
    ensures RoutedIds(p + q) == RoutedIds(p) + RoutedIds(q)
  {
    if p == [] {
      assert p + q == q;
    } else {
      RoutedIdsOfBoth(p[1..], q);
      Joined(p, q);
      Chain([p[0].packet.id], RoutedIds(p[1..]), RoutedIds(q));
    }
  }

  lemma {:induction false} RouteNames(ps: seq<Datagram>, data: map<nat, Bytes>)
    ensures RoutedIds(Route(ps, data)) == Named(ps)
  {
    if ps != [] {
      RouteNames(ps[1..], data);
      assert Route(ps, data)[1..] == Route(ps[1..], data);
    }
  }

  lemma {:induction false} RoutedIdsCount(routed: seq<Routed>, id: nat)
    ensures id in RoutedIds(routed) <==> TimesRouted(routed, id) > 0
  {
    if routed != [] {
      RoutedIdsCount(routed[1..], id);
    }
  }

  /** `b` has not arrived, or it came from the same source and was not an unmarked packet under protocol
      version 0, which is passed through. */
  ghost predicate Follows(w: World, a: nat, b: nat) {
    && a in w.births
    && (b in w.births ==>
          && w.births[b].packet.ssrc == w.births[a].packet.ssrc
          && !(w.births[b].state.version == 0 && !EndsWithMarker(w.births[b].payload)))
  }

  /** `a` is dropped, or released before any `b`, or still waiting with `b` neither released nor in hand. */
  ghost predicate InTurn(w: World, a: nat, b: nat) {
    var f := FlagsOf(w.dec.ledger.flags, a);
    || f.dropped
    || (a in RoutedIds(Released(w)) && Precedes(RoutedIds(Released(w)), a, b))
    || (f.pending && b !in RoutedIds(Released(w)) && !InHand(w, b))
  }

  /** What is known at every point of a run. */
  ghost predicate Sound(idx: Index, w: World, a: nat, b: nat) {
    && Orderly(w) && Sized(w.dec.buckets) && AllInSendOrder(idx, w.dec.buckets)
    && InOnePlace(w, a) && InOnePlace(w, b) && idx(a) < idx(b)
  }

  /** One drain: `b` is handed on only after `a`, and not at all while `a` goes on waiting. */
  lemma PoppedTurns(idx: Index, w: World, env: Env, a: nat, b: nat)
    requires Sound(idx, w, a, b) && Follows(w, a, b) && a in AllIds(w.dec.buckets)
    ensures var (d, ready) := Popped(w.dec, env);
            && (a in Ids(ready) ==> Precedes(Named(ready), a, b))
            && (a in AllIds(d.buckets) ==> b !in Ids(ready))
  {
    hide Popped, AllEntries, AllIds, DistinctAll, KeysDistinct, Sized, Ids, IdSet, Named, Waiting, Precedes, KeptAll,
         FreedAll, AskedAll, Keys, Truthful, InSendOrder, QueueOf, Load;
    PoppedTidy(w.dec, env);
    ObservedTidy(w.dec, env.state.generation);
    GenerationEmpties(w.dec, env.state.generation);
    var bs := Observed(w.dec, env.state.generation).buckets;
    if bs == [] {
      NothingPending(env, a);
    } else {
      assert bs == w.dec.buckets;
      var ssrc := w.births[a].packet.ssrc;
      WaitsInOwnQueue(w, a);
      if b in AllIds(bs) {
        WaitsInOwnQueue(w, b);
      }
      SentEarlierWaitsAhead(idx, QueueOf(bs, ssrc), a, b);
      BucketsKeepTurns(env, bs, ssrc, a, b);
    }
  }

  lemma NothingPending(env: Env, id: nat)
    ensures id !in AllIds(KeptAll(env, [])) && id !in Ids(FreedAll(env, []))
  {
  }

  lemma PopKeepsTurn(idx: Index, w: World, s: Step, a: nat, b: nat)
    requires (s.Receive2? || s.RetryOnce?) && Enabled(w, s) && Sound(idx, w, a, b) && Follows(w, a, b)
    requires FlagsOf(w.dec.ledger.flags, a).pending && b !in RoutedIds(Released(w)) && !InHand(w, b)
    ensures InTurn(Next(w, s), a, b)
  {
    hide Popped, AllIds, Sized, Tidy, Truthful, Ids, Named, RoutedIds, Precedes, AllInSendOrder, Known, AllEntries,
         Released, Route;
    var env := if s.Receive2? then EnvOf(w, s.user2, s.native2) else EnvOf(w, s.user3, s.native3);
    var (d, ready) := Popped(w.dec, env);
    var held := if s.Receive2? && RoutesHeld(d, ready, w.phase.packet) then [w.phase.packet] else [];
    var out := ready + held;
    ReleasedByPop(w, s, env, out);
    assert a in AllIds(w.dec.buckets) by { PendingIsQueued(w.dec, a); }
    PoppedTurns(idx, w, env, a, b);
    PoppedPlaces(w.dec, env, a);
    PoppedPlaces(w.dec, env, b);
    RouteNames(out, d.ledger.data);
    RoutedIdsOfBoth(Released(w), Route(out, d.ledger.data));
    NamedOfBoth(ready, held);
    HeldNames(held);
    NamedIds(ready, a);
    NamedIds(ready, b);
    if s.Receive2? {
      HeldIsReady(w, env);
    }
    AbsentPrecedes(RoutedIds(Released(w)), a, b);
    if a in Ids(ready) {
      PrecedesLonger(Named(ready), Named(held), a, b);
      PrecedesLonger(RoutedIds(Released(w)), Named(out), a, b);
    } else {
      PendingIsQueued(d, a);
    }
  }

  lemma PendingIsQueued(d: Dec, id: nat)
    requires Truthful(d, id)
    ensures FlagsOf(d.ledger.flags, id).pending <==> id in AllIds(d.buckets)
  {
  }

  lemma HeldNames(held: seq<Datagram>)
    requires |held| <= 1
    ensures Named(held) == if held == [] then [] else [held[0].id]
  {
  }

  /** A packet still waiting when a new generation is observed is dropped. */
  lemma ResetDrops(w: World, s: Step, id: nat)
    requires s.Receive1? && Enabled(w, s) && Orderly(w) && InOnePlace(w, id)
    requires id in AllIds(w.dec.buckets) && w.dec.generation != Some(w.conn.generation)
    ensures FlagsOf(Next(w, s).dec.ledger.flags, id).dropped
  {
    hide AllIds, DistinctAll, KeysDistinct, AllEntries, Received, TimesRouted, Observed;
    var env := EnvOf(w, s.user, s.native);
    GenerationEmpties(w.dec, env.state.generation);
    NoIds();
    ReceivedTidy(w.dec, env, s.packet, s.payload);
    ReceivedPlaces(w.dec, env, s.packet, s.payload, id);
  }

  lemma NoIds()
    ensures AllIds([]) == {}
  {
  }

  /** A packet that arrives while another of its SSRC is waiting is made to wait, or dropped. */
  lemma ArrivalWaits(w: World, s: Step, a: nat)
    requires s.Receive1? && Enabled(w, s) && Orderly(w) && Sized(w.dec.buckets)
    requires InOnePlace(w, a) && InOnePlace(w, s.packet.id)
    requires a in AllIds(w.dec.buckets) && w.births[a].packet.ssrc == s.packet.ssrc
    requires !(Current(w).state.version == 0 && !EndsWithMarker(s.payload))
    ensures FlagsOf(Next(w, s).dec.ledger.flags, a).dropped || Load(Next(w, s).dec, s.packet.id) == 1
  {
    hide AllIds, DistinctAll, KeysDistinct, AllEntries, Sized, Deferred, AfterTry, Tried, AllDropped, TimesRouted;
    var env := EnvOf(w, s.user, s.native);
    var marked := w.dec.(ledger := Marked(w.dec.ledger, s.packet.id, NO_FLAGS));
    var o := Observed(marked, env.state.generation);
    WaitsInOwnQueue(w, a);
    Nothing();
    if w.dec.generation != Some(env.state.generation) {
      ResetDrops(w, s, a);
    } else {
      var n := o.(ledger := Marked(o.ledger, s.packet.id,
        FlagsOf(o.ledger.flags, s.packet.id).(needsInner := true, pending := false)));
      DeferredPlaces(n, env, s.packet, s.payload, InOrder, s.packet.id);
    }
  }

  /** The library is asked about a fresh packet only when nothing of its SSRC is waiting. */
  lemma FreshAsksOnlyIfNoneWaits(d: Dec, env: Env, p: Datagram, payload: Bytes)
    requires QueueOf(Observed(d, env.state.generation).buckets, p.ssrc) != []
    ensures Received(d, env, p, payload).0.ledger.offers == d.ledger.offers
  {
    hide QueueOf, Enqueued, WithQueue, AllDropped, RejectsPlaintext, FlagsOf;
    AllDropCounts(Marked(d.ledger, p.id, NO_FLAGS), d.buckets);
    var o := Observed(d.(ledger := Marked(d.ledger, p.id, NO_FLAGS)), env.state.generation);
    assert o.buckets == Observed(d, env.state.generation).buckets;
    ObservedAgain(o, env.state.generation);
  }

  lemma ReceiveKeepsTurn(idx: Index, w: World, s: Step, a: nat, b: nat)
    requires s.Receive1? && Enabled(w, s) && Sound(idx, w, a, b) && Follows(Next(w, s), a, b)
    requires FlagsOf(w.dec.ledger.flags, a).pending && b !in RoutedIds(Released(w)) && !InHand(w, b)
    ensures InTurn(Next(w, s), a, b)
  {
    hide AllIds, DistinctAll, KeysDistinct, AllEntries, Sized, Received, AllInSendOrder, TimesRouted, RoutedIds,
         Released;
    ReleasedStays(w, s);
    PendingIsQueued(w.dec, a);
    assert a in w.births && s.packet.id != a;
    var env := EnvOf(w, s.user, s.native);
    ReceivedPlaces(w.dec, env, s.packet, s.payload, a);
    if s.packet.id == b {
      assert Next(w, s).births[b].packet == s.packet;
      ArrivalWaits(w, s, a);
    }
  }

  lemma SyncKeepsTurn(w: World, s: Step, a: nat, b: nat)
    requires Enabled(w, s) && !s.Receive1? && !s.Receive2? && !s.RetryOnce?
    requires InOnePlace(w, a) && InOnePlace(w, b)
    requires FlagsOf(w.dec.ledger.flags, a).pending && b !in RoutedIds(Released(w)) && !InHand(w, b)
    ensures InTurn(Next(w, s), a, b)
  {
    hide Observed, AllIds, Prepared, RoutedIds, Released;
    ReleasedStays(w, s);
    if s.Sync? {
      ObservedPlaces(w.dec, w.conn.generation, a);
      ObservedPlaces(w.dec, w.conn.generation, b);
    }
  }

  lemma StepKeepsTurn(idx: Index, w: World, s: Step, a: nat, b: nat)
    requires Enabled(w, s) && Sound(idx, w, a, b) && a in w.births && Follows(Next(w, s), a, b)
    requires InTurn(w, a, b)
    ensures InTurn(Next(w, s), a, b)
  {
    hide Next, Enabled, Orderly, InOnePlace, Sized, AllInSendOrder, RoutedIds, Precedes, InHand, Released;
    OffersGrow(w, s);
    if FlagsOf(w.dec.ledger.flags, a).dropped {
      DroppedStaysDropped(w, s, a);
    } else if a in RoutedIds(Released(w)) && Precedes(RoutedIds(Released(w)), a, b) {
      var more := MoreReleased(w, s);
      RoutedIdsOfBoth(Released(w), more);
      PrecedesLonger(RoutedIds(Released(w)), RoutedIds(more), a, b);
    } else if s.Receive1? {
      ReceiveKeepsTurn(idx, w, s, a, b);
    } else if s.Receive2? || s.RetryOnce? {
      PopKeepsTurn(idx, w, s, a, b);
    } else {
      SyncKeepsTurn(w, s, a, b);
    }
  }

  lemma WaitingIsInTurn(w: World, a: nat, b: nat)
    requires InOnePlace(w, a) && InOnePlace(w, b) && a in AllIds(w.dec.buckets)
    requires b !in w.births || b in AllIds(w.dec.buckets)
    ensures InTurn(w, a, b)
  {
    hide AllIds, TimesRouted, RoutedIds, Released;
    RoutedIdsCount(Released(w), b);
  }

  /** Over every run: once a packet waits, a later packet of its source that has not yet been handed on, whether
      it waits too or is still to come, is released after it if at all, unless the first is dropped. */
  lemma {:induction false} NoOvertaking(idx: Index, conn: Connection, clock: real, steps: seq<Step>, m: nat,
                                        a: nat, b: nat)
    requires ValidRun(Start(conn, clock), steps) && NarrowRun(idx, Start(conn, clock), steps)
    requires Numbered(idx, After(Start(conn, clock), steps)) && idx(a) < idx(b) && m <= |steps|
    requires var w := After(Start(conn, clock), steps[..m]);
             a in AllIds(w.dec.buckets) && (b !in w.births || b in AllIds(w.dec.buckets))
    requires Follows(After(Start(conn, clock), steps), a, b)
    ensures InTurn(After(Start(conn, clock), steps), a, b)
    decreases |steps|
  {
    hide Next, Enabled, Orderly, InOnePlace, Sized, AllInSendOrder, InTurn, Numbers, NarrowStep, AllIds, Follows;
    RunIsOrderly(conn, clock, steps);
    if m == |steps| {
      assert steps[..m] == steps;
      WaitingIsInTurn(After(Start(conn, clock), steps), a, b);
    } else {
      var n := |steps| - 1;
      var w := After(Start(conn, clock), steps[..n]);
      assert steps[..n][..m] == steps[..m];
      RunIsOrderly(conn, clock, steps[..n]);
      OffersGrow(w, steps[n]);
      QueuesAreBounded(conn, clock, steps[..n]);
      QueuesInSendOrder(idx, conn, clock, steps[..n]);
      WaitingHasArrived(conn, clock, steps[..n], m, a);
      FollowedBefore(w, steps[n], a, b);
      NoOvertaking(idx, conn, clock, steps[..n], m, a, b);
      StepKeepsTurn(idx, w, steps[n], a, b);
    }
  }

  lemma FollowedBefore(w: World, s: Step, a: nat, b: nat)
    requires Orderly(w) && Enabled(w, s) && a in w.births && Follows(Next(w, s), a, b)
    ensures Follows(w, a, b)
  {
    hide Next, Enabled, Orderly;
    OffersGrow(w, s);
  }

  lemma {:induction false} WaitingHasArrived(conn: Connection, clock: real, steps: seq<Step>, m: nat, id: nat)
    requires ValidRun(Start(conn, clock), steps) && m <= |steps|
    requires id in AllIds(After(Start(conn, clock), steps[..m]).dec.buckets)
    ensures id in After(Start(conn, clock), steps).births
    decreases |steps|
  {
    hide Next, Enabled, AllIds, InOnePlace;
    RunIsOrderly(conn, clock, steps);
    if m == |steps| {
      assert steps[..m] == steps;
    } else {
      var n := |steps| - 1;
      assert steps[..n][..m] == steps[..m];
      RunIsOrderly(conn, clock, steps[..n]);
      WaitingHasArrived(conn, clock, steps[..n], m, id);
      OffersGrow(After(Start(conn, clock), steps[..n]), steps[n]);
    }
  }

  /** So in the routed packets, `a` comes before any `b`, unless it was dropped. */
  lemma RoutedInOrder(idx: Index, conn: Connection, clock: real, steps: seq<Step>, m: nat, a: nat, b: nat, k: nat)
    requires ValidRun(Start(conn, clock), steps) && NarrowRun(idx, Start(conn, clock), steps)
    requires Numbered(idx, After(Start(conn, clock), steps)) && idx(a) < idx(b) && m <= |steps|
    requires var w := After(Start(conn, clock), steps[..m]);
             a in AllIds(w.dec.buckets) && (b !in w.births || b in AllIds(w.dec.buckets))
    requires Follows(After(Start(conn, clock), steps), a, b)
    requires var ids := RoutedIds(After(Start(conn, clock), steps).routed); k < |ids| && ids[k] == b
    ensures var w := After(Start(conn, clock), steps);
            FlagsOf(w.dec.ledger.flags, a).dropped || a in RoutedIds(w.routed)[..k]
  {
    hide ValidRun, NarrowRun, After, Follows, Numbered, AllIds;
    NoOvertaking(idx, conn, clock, steps, m, a, b);
    var w := After(Start(conn, clock), steps);
    RoutedIdsOfBoth(w.routed, Rest(w));
    var ids := RoutedIds(w.routed);
    assert RoutedIds(Released(w))[k] == ids[k] && RoutedIds(Released(w))[..k] == ids[..k];
    if !FlagsOf(w.dec.ledger.flags, a).dropped {
      PrecedesMeans(RoutedIds(Released(w)), a, b, k);
    }
  }

  /** The situation arises: a packet whose sender is not known yet waits for one. */
  lemma PacketsDoWait(w: World, s: Step)
    requires Orderly(w) && Enabled(w, s) && s.Receive1? && w.dec.buckets == []
    requires Current(w).state.version > 0 && EndsWithMarker(s.payload) && s.user(s.packet.id) == None
    ensures AllIds(Next(w, s).dec.buckets) == {s.packet.id}
  {
    hide Enqueued, AllDropped, DavePayload.Parse, DistinctAll, KeysDistinct, FlagsOf, MaxAge;
    var env := EnvOf(w, s.user, s.native);
    var o := Observed(w.dec.(ledger := Marked(w.dec.ledger, s.packet.id, NO_FLAGS)), env.state.generation);
    var l := Marked(o.ledger, s.packet.id, FlagsOf(o.ledger.flags, s.packet.id).(needsInner := true, pending := false));
    NoIds();
    NoQueue(s.packet.ssrc);
    ObservedTidy(w.dec, env.state.generation);
    DeferredQueues(o.(ledger := AfterTry(l, env, s.packet, s.payload)), env, s.packet, s.payload, NoUserId);
  }

  lemma NoQueue(ssrc: nat)
    ensures QueueOf([], ssrc) == [] && IdSet([]) == {}
  {
  }
}
