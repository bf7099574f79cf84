/** What the first half of a callback does with the packet that arrives, and what a new generation does with all that
    are waiting. */
module Arrivals {
  import opened Bytes
  import opened Options
  import opened Dave
  import opened Deferral
  import opened DrainFacts
  import opened BucketFacts
  import opened Placement
  import opened Pipeline
  import opened Bounds
  import DavePayload

  /** The four ways a packet can go when it arrives. */
  datatype Way = Refused | PassedThrough | OpenedAtOnce(data: Bytes) | MadeToWait(reason: Reason)

  /** What is waiting of an SSRC, in the generation of the connection. */
  function Ahead(w: World, ssrc: nat): seq<Entry> {
    if w.dec.generation == Some(w.conn.generation) then QueueOf(w.dec.buckets, ssrc) else []
  }

  /** The way of a packet, by the session, the payload, the sender, the library, and whether its SSRC waits. */
  ghost function WayOf(w: World, s: Step): Way
    requires s.Receive1?
  {
    var session := Current(w).state;
    var marked := EndsWithMarker(s.payload);
    if Strict(session) && !marked then Refused
    else if session.version == 0 && !DavePayload.Wrapped(s.payload) then
      if marked then Refused else PassedThrough
    else if Ahead(w, s.packet.ssrc) != [] then MadeToWait(InOrder)
    else if s.user(s.packet.id).None? then MadeToWait(NoUserId)
    else if !session.ready then MadeToWait(SessionNotReady)
    else match s.native(s.packet.id)
      case Plain(data) => OpenedAtOnce(data)
      case RaisesRuntime => MadeToWait(SessionBusy)
      case RaisesNoDecryptor => MadeToWait(NoKey)
      case RaisesValue => MadeToWait(Failed)
  }

  /** The entry of a packet that has to wait. */
  function EntryFor(w: World, s: Step, reason: Reason): Entry
    requires s.Receive1?
  {
    var prepared := Current(w).state.preparedAt;
    Entry(s.packet, s.payload, reason, w.clock, if prepared.Some? && w.clock - prepared.value < 5.0 then 15.0 else 10.0)
  }

  // ----- Deferring, exactly -----

  lemma EnqueuedKeeps(queue: seq<Entry>, e: Entry)
    ensures multiset(Enqueued(queue, e)) == multiset(queue) + multiset{e}
  {
    hide SortedBy;
    SortedByKeeps(queue + [e], (queue + [e])[0].packet.sequence);
  }

  /** The queue of the packet has the new entry, and lacks one that is dropped if 1024 were waiting already. */
  ghost predicate HasJoined(before: seq<Entry>, after: seq<Entry>, e: Entry, flags: map<nat, Flags>) {
    if |before| < 1024 then multiset(after) == multiset(before) + multiset{e}
    else exists lost :: lost in before + [e] && multiset(after) == multiset(before) + multiset{e} - multiset{lost}
                        && FlagsOf(flags, lost.packet.id).dropped
  }

  lemma DeferredExactly(d: Dec, env: Env, p: Datagram, payload: Bytes, reason: Reason)
    requires d.generation == Some(env.state.generation) && KeysDistinct(d.buckets)
    requires FlagsOf(d.ledger.flags, p.id) == Flags(true, false, false, false, false)
    ensures var e := Deferred(d, env, p, payload, reason);
            var before := QueueOf(d.buckets, p.ssrc);
            && e.ledger.data == d.ledger.data
            && (forall other | other != p.ssrc :: QueueOf(e.buckets, other) == QueueOf(d.buckets, other))
            && HasJoined(before, QueueOf(e.buckets, p.ssrc), Entry(p, payload, reason, env.now, MaxAge(env)),
                      e.ledger.flags)
            && (|before| < 1024 ==> FlagsOf(e.ledger.flags, p.id) == Flags(true, true, false, false, false))
            && (|before| >= 1024 ==> FlagsOf(e.ledger.flags, p.id) == Flags(true, true, false, false, false)
                                     || FlagsOf(e.ledger.flags, p.id) == Flags(true, false, true, false, false))
  {
    hide Enqueued, WithQueue, QueueOf, KeysDistinct, MaxAge;
    ObservedAgain(d, env.state.generation);
    var before := QueueOf(d.buckets, p.ssrc);
    var entry := Entry(p, payload, reason, env.now, MaxAge(env));
    var queue := Enqueued(before, entry);
    EnqueuedKeeps(before, entry);
    var stored := if |queue| > MAX_PER_SSRC then queue[1..] else queue;
    WithQueueKeys(d.buckets, p.ssrc, stored);
    if |queue| > MAX_PER_SSRC {
      assert queue == [queue[0]] + queue[1..];
      assert queue[0] in multiset(before + [entry]) by {
        assert multiset(before + [entry]) == multiset(before) + multiset{entry};
        assert queue[0] in multiset(queue);
      }
      assert queue[0] in before + [entry];
    }
  }

  // ----- A fresh packet, exactly -----

  lemma FreshFlags(d: Dec, generation: nat, p: Datagram)
    requires Tidy(d) && p.id !in AllIds(d.buckets)
    ensures var o := Observed(d.(ledger := Marked(d.ledger, p.id, NO_FLAGS)), generation);
            && FlagsOf(o.ledger.flags, p.id) == NO_FLAGS
            && o.buckets == (if d.generation == Some(generation) then d.buckets else [])
            && o.ledger.data == d.ledger.data && o.generation == Some(generation)
  {
    hide AllIds, DistinctAll, KeysDistinct;
    var l := Marked(d.ledger, p.id, NO_FLAGS);
    AllDroppedFate(l, d.buckets, p.id);
    AllDropCounts(l, d.buckets);
  }

  lemma TryExactly(l: Ledger, env: Env, p: Datagram, payload: Bytes)
    requires Coherent(env.state) && !(Strict(env.state) && !EndsWithMarker(payload))
    requires FlagsOf(l.flags, p.id) == Flags(true, false, false, false, false)
    ensures AfterTry(l, env, p, payload).data == l.data
    ensures Tried(env, p, payload)
         == if env.user(p.id).None? then Failure(NoUserId)
            else if !env.state.ready then Failure(SessionNotReady)
            else match env.native(p.id)
                 case Plain(data) => Success(data)
                 case RaisesRuntime => Failure(SessionBusy)
                 case RaisesNoDecryptor => Failure(NoKey)
                 case RaisesValue => Failure(Failed)
    ensures FlagsOf(AfterTry(l, env, p, payload).flags, p.id)
         == if Tried(env, p, payload).Success? then Flags(false, false, false, true, false)
            else Flags(true, false, false, false, false)
  {
  }

  lemma InnerExactly(w: World, s: Step, d: Dec)
    requires s.Receive1? && Orderly(w) && d.generation == Some(w.conn.generation) && KeysDistinct(d.buckets)
    requires d.buckets == if w.dec.generation == Some(w.conn.generation) then w.dec.buckets else []
    requires FlagsOf(d.ledger.flags, s.packet.id) == Flags(true, false, false, false, false)
    requires WayOf(w, s).OpenedAtOnce? || WayOf(w, s).MadeToWait?
    ensures var (e, result) := Inner(d, EnvOf(w, s.user, s.native), s.packet, s.payload);
            var f := FlagsOf(e.ledger.flags, s.packet.id);
            match WayOf(w, s)
            case OpenedAtOnce(data) =>
              result == data && f == Flags(false, false, false, true, false) && e.buckets == d.buckets
            case MadeToWait(reason) =>
              && result == s.payload && AsDeferred(w, s, reason, e)
            case _ => false
  {
    hide Deferred, AfterTry, Tried, KeysDistinct, Orderly, Refreshed, AsDeferred, EntryFor;
    var env := EnvOf(w, s.user, s.native);
    RefreshIsTrue(w.bridge, w.conn, w.clock);
    TryExactly(d.ledger, env, s.packet, s.payload);
    AheadIs(w, d, s.packet.ssrc);
    if QueueOf(d.buckets, s.packet.ssrc) != [] {
      WaitsExactly(w, s, d, InOrder);
    } else {
      var t := d.(ledger := AfterTry(d.ledger, env, s.packet, s.payload));
      if Tried(env, s.packet, s.payload).Failure? {
        WaitsExactly(w, s, t, Tried(env, s.packet, s.payload).reason);
      }
    }
  }

  lemma AheadIs(w: World, d: Dec, ssrc: nat)
    requires d.buckets == if w.dec.generation == Some(w.conn.generation) then w.dec.buckets else []
    ensures QueueOf(d.buckets, ssrc) == Ahead(w, ssrc)
  {
  }

  /** The packet has joined the queue of its SSRC, and the other queues are as they were. */
  ghost predicate AsDeferred(w: World, s: Step, reason: Reason, e: Dec)
    requires s.Receive1?
  {
    var before := Ahead(w, s.packet.ssrc);
    var f := FlagsOf(e.ledger.flags, s.packet.id);
    && (forall other | other != s.packet.ssrc :: QueueOf(e.buckets, other) == Ahead(w, other))
    && HasJoined(before, QueueOf(e.buckets, s.packet.ssrc), EntryFor(w, s, reason), e.ledger.flags)
    && (f == Flags(true, true, false, false, false)
        || (|before| >= 1024 && f == Flags(true, false, true, false, false)))
  }

  lemma WaitsExactly(w: World, s: Step, d: Dec, reason: Reason)
    requires s.Receive1? && d.generation == Some(w.conn.generation) && KeysDistinct(d.buckets)
    requires d.buckets == if w.dec.generation == Some(w.conn.generation) then w.dec.buckets else []
    requires FlagsOf(d.ledger.flags, s.packet.id) == Flags(true, false, false, false, false)
    ensures AsDeferred(w, s, reason, Deferred(d, EnvOf(w, s.user, s.native), s.packet, s.payload, reason))
  {
    hide Deferred, KeysDistinct, HasJoined, FlagsOf, Refreshed, Ahead, QueueOf;
    var env := EnvOf(w, s.user, s.native);
    RefreshIsTrue(w.bridge, w.conn, w.clock);
    DeferredExactly(d, env, s.packet, s.payload, reason);
    assert forall ssrc :: QueueOf(d.buckets, ssrc) == Ahead(w, ssrc) by {
      forall ssrc
        ensures QueueOf(d.buckets, ssrc) == Ahead(w, ssrc)
      {
        AheadIs(w, d, ssrc);
      }
    }
  }

  /** Nothing joins a queue. */
  ghost predicate QueuesStay(w: World, d: Dec) {
    forall ssrc :: QueueOf(d.buckets, ssrc) == Ahead(w, ssrc)
  }

  /** The decryptor after an arrival, and what it returned. */
  ghost predicate WentItsWay(w: World, s: Step, d: Dec, result: Bytes)
    requires s.Receive1?
  {
    var f := FlagsOf(d.ledger.flags, s.packet.id);
    match WayOf(w, s)
    case Refused =>
      && result == (if Strict(Current(w).state) then [] else s.payload)
      && f == Flags(true, false, true, false, false) && QueuesStay(w, d)
    case PassedThrough => result == s.payload && f == NO_FLAGS && QueuesStay(w, d)
    case OpenedAtOnce(data) => result == data && f == Flags(false, false, false, true, false) && QueuesStay(w, d)
    case MadeToWait(reason) => result == s.payload && AsDeferred(w, s, reason, d)
  }

  lemma QueuesAreAhead(w: World, d: Dec)
    requires d.buckets == if w.dec.generation == Some(w.conn.generation) then w.dec.buckets else []
    ensures QueuesStay(w, d)
  {
    hide QueueOf, Ahead;
    forall ssrc
      ensures QueueOf(d.buckets, ssrc) == Ahead(w, ssrc)
    {
      AheadIs(w, d, ssrc);
    }
  }

  /** The branches before and after the inner path. */
  lemma ReceivedExactly(w: World, s: Step)
    requires s.Receive1? && Orderly(w) && Enabled(w, s)
    ensures var (d, result) := Received(w.dec, EnvOf(w, s.user, s.native), s.packet, s.payload);
            WentItsWay(w, s, d, result)
  {
    hide Inner, Observed, Refreshed, DavePayload.Parse, DavePayload.Wrapped, QueuesStay, AsDeferred;
    var env := EnvOf(w, s.user, s.native);
    var p := s.packet;
    RefreshIsTrue(w.bridge, w.conn, w.clock);
    assert Tidy(w.dec) && p.id !in AllIds(w.dec.buckets);
    hide Orderly;
    FreshFlags(w.dec, w.conn.generation, p);
    DavePayload.AcceptsExactlyWellFormed(s.payload);
    var o := Observed(w.dec.(ledger := Marked(w.dec.ledger, p.id, NO_FLAGS)), env.state.generation);
    QueuesAreAhead(w, o);
    var f := FlagsOf(o.ledger.flags, p.id);
    var n := o.(ledger := Marked(o.ledger, p.id, f.(needsInner := true, pending := false)));
    if WayOf(w, s).OpenedAtOnce? || WayOf(w, s).MadeToWait? {
      NoKeysYet();
      InnerExactly(w, s, n);
      if WayOf(w, s).OpenedAtOnce? {
        QueuesAreAhead(w, Inner(n, env, p, s.payload).0);
      }
    } else {
      QueuesAreAhead(w, o.(ledger := Marked(o.ledger, p.id, f.(needsInner := true, dropped := true))));
    }
  }

  /** Where a packet goes when it arrives, with which data and marks, and what that does to the queues. */
  lemma ArrivalExactly(w: World, s: Step)
    requires s.Receive1? && Orderly(w) && Enabled(w, s)
    ensures var id, v := s.packet.id, Next(w, s);
            && id in v.dec.ledger.data && WentItsWay(w, s, v.dec, v.dec.ledger.data[id])
            && (InHand(v, id) <==> WayOf(w, s).PassedThrough? || WayOf(w, s).OpenedAtOnce?)
  {
    hide Received, Refreshed, Orderly, Enabled, HasJoined, QueuesStay, WayOf;
    ReceivedExactly(w, s);
    var (d, result) := Received(w.dec, EnvOf(w, s.user, s.native), s.packet, s.payload);
    WayIgnoresData(w, s, d, d.ledger.data[s.packet.id := result], result);
  }

  lemma WayIgnoresData(w: World, s: Step, d: Dec, data: map<nat, Bytes>, result: Bytes)
    requires s.Receive1? && WentItsWay(w, s, d, result)
    ensures WentItsWay(w, s, d.(ledger := d.ledger.(data := data)), result)
  {
    hide WayOf, HasJoined;
  }

  lemma NoKeysYet()
    ensures KeysDistinct([])
  {
  }

  /** With fewer than 1024 packets ahead, an arrival is dropped at once if and only if it is unmarked in a strict
      session, or marked but not well formed under protocol version 0. */
  lemma DroppedAtOnceExactly(w: World, s: Step)
    requires s.Receive1? && Orderly(w) && Enabled(w, s) && |Ahead(w, s.packet.ssrc)| < 1024
    ensures FlagsOf(Next(w, s).dec.ledger.flags, s.packet.id).dropped
       <==> (Strict(Current(w).state) && !EndsWithMarker(s.payload))
            || (w.conn.version == 0 && EndsWithMarker(s.payload) && !DavePayload.Wrapped(s.payload))
  {
    hide Next, Orderly, Enabled, HasJoined, DavePayload.Wrapped, QueuesStay, Ahead;
    RefreshIsTrue(w.bridge, w.conn, w.clock);
    ArrivalExactly(w, s);
  }

  /** The library is asked about an arrival exactly if it is opened at once, or has to wait because of its answer. */
  lemma ArrivalAsks(w: World, s: Step)
    requires s.Receive1? && Orderly(w) && Enabled(w, s)
    ensures var way := WayOf(w, s);
            var asks := way.OpenedAtOnce? || (way.MadeToWait? && way.reason in {SessionBusy, NoKey, Failed});
            Next(w, s).dec.ledger.offers
            == w.dec.ledger.offers
               + if asks then [Offer(s.packet.id, w.conn.generation, s.payload, s.native(s.packet.id))] else []
  {
    hide Inner, Observed, Refreshed, DavePayload.Parse, DavePayload.Wrapped, AllIds, DistinctAll, KeysDistinct,
         AllEntries, Known, QueueOf;
    var env := EnvOf(w, s.user, s.native);
    var p := s.packet;
    RefreshIsTrue(w.bridge, w.conn, w.clock);
    DavePayload.AcceptsExactlyWellFormed(s.payload);
    FreshFlags(w.dec, w.conn.generation, p);
    var m := w.dec.(ledger := Marked(w.dec.ledger, p.id, NO_FLAGS));
    AllDroppedAsks(m, w.conn.generation);
    var o := Observed(m, env.state.generation);
    if WayOf(w, s).OpenedAtOnce? || WayOf(w, s).MadeToWait? {
      var f := FlagsOf(o.ledger.flags, p.id).(needsInner := true, pending := false);
      InnerAsks(w, s, o.(ledger := Marked(o.ledger, p.id, f)));
    }
  }

  lemma AllDroppedAsks(d: Dec, generation: nat)
    ensures Observed(d, generation).ledger.offers == d.ledger.offers
  {
    AllDropCounts(d.ledger, d.buckets);
  }

  lemma InnerAsks(w: World, s: Step, d: Dec)
    requires s.Receive1? && d.generation == Some(w.conn.generation)
    requires d.buckets == if w.dec.generation == Some(w.conn.generation) then w.dec.buckets else []
    requires FlagsOf(d.ledger.flags, s.packet.id) == Flags(true, false, false, false, false)
    requires WayOf(w, s).OpenedAtOnce? || WayOf(w, s).MadeToWait?
    ensures var way := WayOf(w, s);
            var asks := way.OpenedAtOnce? || (way.MadeToWait? && way.reason in {SessionBusy, NoKey, Failed});
            Inner(d, EnvOf(w, s.user, s.native), s.packet, s.payload).0.ledger.offers
            == d.ledger.offers
               + if asks then [Offer(s.packet.id, w.conn.generation, s.payload, s.native(s.packet.id))] else []
  {
    hide Deferred, AfterTry, Tried, Refreshed, QueueOf, WayOf, Calls;
    var env := EnvOf(w, s.user, s.native);
    RefreshIsTrue(w.bridge, w.conn, w.clock);
    ArrivalCalls(w, s);
    TryAsks(d.ledger, env, s.packet, s.payload);
    AheadIs(w, d, s.packet.ssrc);
    DeferredAsks(d, env, s.packet, s.payload, InOrder);
    if Tried(env, s.packet, s.payload).Failure? {
      DeferredAsks(d.(ledger := AfterTry(d.ledger, env, s.packet, s.payload)), env, s.packet, s.payload,
                   Tried(env, s.packet, s.payload).reason);
    }
    assert d.ledger.offers + [] == d.ledger.offers;
  }

  lemma ArrivalCalls(w: World, s: Step)
    requires s.Receive1? && (WayOf(w, s).OpenedAtOnce? || WayOf(w, s).MadeToWait?)
    ensures var way := WayOf(w, s);
            var asks := way.OpenedAtOnce? || (way.MadeToWait? && way.reason in {SessionBusy, NoKey, Failed});
            if Ahead(w, s.packet.ssrc) != [] then way == MadeToWait(InOrder)
            else Calls(EnvOf(w, s.user, s.native), s.packet, s.payload)
                 == if asks then [Offer(s.packet.id, w.conn.generation, s.payload, s.native(s.packet.id))] else []
  {
    hide Ahead, Refreshed;
    RefreshIsTrue(w.bridge, w.conn, w.clock);
  }

  lemma DeferredAsks(d: Dec, env: Env, p: Datagram, payload: Bytes, reason: Reason)
    requires d.generation == Some(env.state.generation)
    ensures Deferred(d, env, p, payload, reason).ledger.offers == d.ledger.offers
  {
    hide Enqueued, WithQueue, QueueOf, MaxAge;
    ObservedAgain(d, env.state.generation);
  }

  // ----- A new generation -----

  /** Observing a new generation empties all queues and drops all that were waiting; observing the same changes
      nothing. */
  lemma SyncExactly(w: World, id: nat)
    ensures var d, e := w.dec, Next(w, Sync).dec;
            var was, now := FlagsOf(d.ledger.flags, id), FlagsOf(e.ledger.flags, id);
            && e.generation == Some(w.conn.generation)
            && (d.generation == Some(w.conn.generation) ==> e == d)
            && (d.generation.Some? && d.generation != Some(w.conn.generation) ==>
                  && e.buckets == [] && e.ledger.ready == []
                  && now == (if id in AllIds(d.buckets) then was.(dropped := true, pending := false) else was))
  {
    hide AllDropped, AllIds;
    AllDroppedFate(w.dec.ledger, w.dec.buckets, id);
  }

  /** The same goes for whatever step observes it first: what was waiting is dropped. */
  lemma NewGenerationDrops(w: World, s: Step, id: nat)
    requires Orderly(w) && Enabled(w, s) && InOnePlace(w, id)
    requires s.Receive1? || s.Receive2? || s.RetryOnce? || s.Sync?
    requires id in AllIds(w.dec.buckets) && w.dec.generation != Some(w.conn.generation)
    ensures FlagsOf(Next(w, s).dec.ledger.flags, id).dropped && id !in AllIds(Next(w, s).dec.buckets)
  {
    hide Received, Popped, Observed, AllIds, DistinctAll, KeysDistinct, AllEntries, Known, TimesRouted, KeptAll,
         FreedAll, Grown, Released, Route, AskedAll;
    RefreshIsTrue(w.bridge, w.conn, w.clock);
    GenerationEmpties(w.dec, w.conn.generation);
    NothingIsThere();
    match s {
      case Receive1(p, payload, user, native) => ResetByArrival(w, s, id);
      case Receive2(user, native) => ResetByPop(w, EnvOf(w, user, native), id);
      case RetryOnce(user, native) => ResetByPop(w, EnvOf(w, user, native), id);
      case Sync => ObservedPlaces(w.dec, w.conn.generation, id);
    }
  }

  lemma NothingIsThere()
    ensures AllIds([]) == {} && forall env :: KeptAll(env, []) == [] && FreedAll(env, []) == []
  {
  }

  lemma ResetByArrival(w: World, s: Step, id: nat)
    requires s.Receive1? && Orderly(w) && Enabled(w, s) && InOnePlace(w, id) && id in AllIds(w.dec.buckets)
    requires Observed(w.dec, w.conn.generation).buckets == []
    ensures FlagsOf(Next(w, s).dec.ledger.flags, id).dropped && id !in AllIds(Next(w, s).dec.buckets)
  {
    hide Received, Observed, AllIds, DistinctAll, KeysDistinct, AllEntries, TimesRouted;
    var env := EnvOf(w, s.user, s.native);
    NothingIsThere();
    ReceivedTidy(w.dec, env, s.packet, s.payload);
    ReceivedPlaces(w.dec, env, s.packet, s.payload, id);
  }

  lemma ResetByPop(w: World, env: Env, id: nat)
    requires Orderly(w) && InOnePlace(w, id) && id in AllIds(w.dec.buckets)
    requires env.state.generation == w.conn.generation && Observed(w.dec, w.conn.generation).buckets == []
    ensures var d := Popped(w.dec, env).0; FlagsOf(d.ledger.flags, id).dropped && id !in AllIds(d.buckets)
  {
    hide Popped, Observed, AllIds, DistinctAll, KeysDistinct, AllEntries, TimesRouted, KeptAll, FreedAll, AskedAll;
    NothingIsThere();
    PoppedTidy(w.dec, env);
    PoppedPlaces(w.dec, env, id);
    assert Ids([]) == {} by { Nothing(); }
  }

  // ----- What is let out is decrypted -----

  /** A packet in hand or let out is not marked as encrypted any more, so a decoder does not skip it for that. */
  ghost predicate Decoded(w: World, id: nat) {
    InHand(w, id) || TimesRouted(Released(w), id) > 0 ==> !FlagsOf(w.dec.ledger.flags, id).needsInner
  }

  lemma ArrivalKeepsDecoded(w: World, s: Step, id: nat)
    requires s.Receive1? && Orderly(w) && Enabled(w, s) && InOnePlace(w, id) && Decoded(w, id)
    ensures Decoded(Next(w, s), id)
  {
    hide Received, Refreshed, AllIds, DistinctAll, KeysDistinct, AllEntries, Known, TimesRouted, Released, AsDeferred,
         QueuesStay, WayOf;
    ReleasedStays(w, s);
    ArrivalExactly(w, s);
    ReceivedPlaces(w.dec, EnvOf(w, s.user, s.native), s.packet, s.payload, id);
  }

  lemma PopKeepsDecoded(w: World, s: Step, id: nat)
    requires (s.Receive2? || s.RetryOnce?) && Orderly(w) && Enabled(w, s) && InOnePlace(w, id) && Decoded(w, id)
    ensures Decoded(Next(w, s), id)
  {
    hide Popped, AllIds, Tidy, Ids, Route, Known, AllEntries, Released, TimesRouted, Truthful;
    var env := if s.Receive2? then EnvOf(w, s.user2, s.native2) else EnvOf(w, s.user3, s.native3);
    var (d, ready) := Popped(w.dec, env);
    var held := if s.Receive2? && RoutesHeld(d, ready, w.phase.packet) then [w.phase.packet] else [];
    ReleasedByPop(w, s, env, ready + held);
    TimesRoute(ready + held, d.ledger.data, id);
    TimesRoutedBoth(Released(w), Route(ready + held, d.ledger.data), id);
    TimesOfBoth(ready, held, id);
    assert held != [] ==> held[1..] == [];
    PoppedPlaces(w.dec, env, id);
    if s.Receive2? {
      HeldIsReady(w, env);
    }
    PendingIsStored(w.dec, id);
  }

  lemma PendingIsStored(d: Dec, id: nat)
    requires Truthful(d, id)
    ensures Load(d, id) == 0 ==> id !in AllIds(d.buckets)
  {
  }

  lemma OtherKeepsDecoded(w: World, s: Step, id: nat)
    requires Enabled(w, s) && !s.Receive1? && !s.Receive2? && !s.RetryOnce? && InOnePlace(w, id) && Decoded(w, id)
    ensures Decoded(Next(w, s), id)
  {
    hide Observed, AllIds, Prepared, Released, TimesRouted;
    ReleasedStays(w, s);
    if s.Sync? {
      ObservedPlaces(w.dec, w.conn.generation, id);
    }
  }

  /** Over every run: no packet leaves the decryptor that is still marked as in need of inner decryption. */
  lemma {:induction false} LetOutIsDecoded(conn: Connection, clock: real, steps: seq<Step>, id: nat)
    requires ValidRun(Start(conn, clock), steps)
    ensures Decoded(After(Start(conn, clock), steps), id)
    decreases |steps|
  {
    hide Next, Enabled, Orderly, InOnePlace, Decoded;
    if steps == [] {
      NothingLetOut(conn, clock, id);
    } else {
      var n := |steps| - 1;
      var w, s := After(Start(conn, clock), steps[..n]), steps[n];
      LetOutIsDecoded(conn, clock, steps[..n], id);
      RunIsOrderly(conn, clock, steps[..n]);
      if s.Receive1? {
        ArrivalKeepsDecoded(w, s, id);
      } else if s.Receive2? || s.RetryOnce? {
        PopKeepsDecoded(w, s, id);
      } else {
        OtherKeepsDecoded(w, s, id);
      }
    }
  }

  lemma NothingLetOut(conn: Connection, clock: real, id: nat)
    ensures Decoded(Start(conn, clock), id)
  {
  }
}
