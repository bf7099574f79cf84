/** Packets that the end-to-end session cannot decrypt yet (the inner half of `PacketDecryptor`, reader.py). */
module Deferral {
  import opened Bytes
  import opened Modular
  import opened Options
  import opened Dave
  import DavePayload

  const MAX_PER_SSRC: nat := 1024
  const AGE: real := 10.0
  const INITIAL_EPOCH_AGE: real := 15.0
  const GRACE: real := 5.0

  /** A received packet, by identity. */
  datatype Datagram = Datagram(id: nat, ssrc: nat, sequence: Seq16)

  datatype Reason = NoUserId | SessionNotReady | Rejected | SessionBusy | NoKey | Failed | InOrder

  /** `PendingInnerPacket`. */
  datatype Entry = Entry(packet: Datagram, payload: Bytes, reason: Reason, queuedAt: real, maxAge: real)

  /** One item of the `_pending_inner_packets` dictionary, which keeps insertion order. */
  datatype Bucket = Bucket(ssrc: nat, queue: seq<Entry>)

  /** The keys of a packet's extension data that this file writes. */
  datatype Flags = Flags(needsInner: bool, pending: bool, dropped: bool, innerDecrypted: bool, recovered: bool)

  const NO_FLAGS: Flags := Flags(false, false, false, false, false)

  datatype Counters = Counters(
    queued: nat, recovered: nat, overflow: nat, expired: nat, plaintext: nat, unrecoverable: nat, sessionReset: nat)

  const ZERO: Counters := Counters(0, 0, 0, 0, 0, 0, 0)

  /** One call of the library's `decrypt`, and the generation it was made in. */
  datatype Offer = Offer(id: nat, generation: nat, payload: Bytes, result: Native)

  /** `flags` and `data` are spread over the packets in the source; `offers` records the library calls. */
  datatype Ledger = Ledger(
    ready: seq<Datagram>, flags: map<nat, Flags>, data: map<nat, Bytes>, counters: Counters, offers: seq<Offer>)

  datatype Dec = Dec(buckets: seq<Bucket>, generation: Option<nat>, ledger: Ledger)

  const NEW: Dec := Dec([], None, Ledger([], map[], map[], ZERO, []))

  /** What one locked operation finds: the refreshed state, the clock, and what the user lookup and the
      library answer for each packet. */
  datatype Env = Env(state: State, now: real, user: nat -> Option<nat>, native: nat -> Native)

  // ----- The dictionary of queues -----

  function QueueOf(bs: seq<Bucket>, ssrc: nat): seq<Entry> {
    if bs == [] then [] else if bs[0].ssrc == ssrc then bs[0].queue else QueueOf(bs[1..], ssrc)
  }

  function WithQueue(bs: seq<Bucket>, ssrc: nat, queue: seq<Entry>): seq<Bucket> {
    if bs == [] then [Bucket(ssrc, queue)]
    else if bs[0].ssrc == ssrc then [Bucket(ssrc, queue)] + bs[1..]
    else [bs[0]] + WithQueue(bs[1..], ssrc, queue)
  }

  // ----- Sorting by signed 16-bit distance -----

  function Distance(sequence: Seq16, anchor: Seq16): (d: int)
    ensures -32768 <= d < 32768
  {
    (sequence - anchor + 32768) % 0x1_0000 - 32768
  }

  /** `list.sort` with a key is stable: an entry goes behind all that are not greater. */
  function Placed(queue: seq<Entry>, e: Entry, anchor: Seq16): (r: seq<Entry>)
    ensures |r| == |queue| + 1
  {
    if queue != [] && Distance(queue[|queue| - 1].packet.sequence, anchor) > Distance(e.packet.sequence, anchor)
    then Placed(queue[..|queue| - 1], e, anchor) + [queue[|queue| - 1]]
    else queue + [e]
  }

  function SortedBy(queue: seq<Entry>, anchor: Seq16): (r: seq<Entry>)
    ensures |r| == |queue|
  {
    if queue == [] then [] else Placed(SortedBy(queue[..|queue| - 1], anchor), queue[|queue| - 1], anchor)
  }

  // ----- Generations -----

  function Dropping(f: Flags): Flags {
    f.(dropped := true, pending := false)
  }

  function FlagsOf(flags: map<nat, Flags>, id: nat): Flags {
    if id in flags then flags[id] else NO_FLAGS
  }

  function Marked(l: Ledger, id: nat, f: Flags): Ledger {
    l.(flags := l.flags[id := f])
  }

  function QueueDropped(l: Ledger, queue: seq<Entry>): Ledger
    decreases |queue|
  {
    if queue == [] then l else
      var id := queue[0].packet.id;
      QueueDropped(Marked(l, id, Dropping(FlagsOf(l.flags, id)))
                   .(counters := l.counters.(sessionReset := l.counters.sessionReset + 1)), queue[1..])
  }

  function AllDropped(l: Ledger, bs: seq<Bucket>): Ledger
    decreases |bs|
  {
    if bs == [] then l else AllDropped(QueueDropped(l, bs[0].queue), bs[1..])
  }

  /** `_bridge_state`: a new generation drops everything that is pending. */
  function Observed(d: Dec, generation: nat): Dec {
    if d.generation.Some? && d.generation.value != generation
    then Dec([], Some(generation), AllDropped(d.ledger, d.buckets).(ready := []))
    else d.(generation := Some(generation))
  }

  // ----- One attempt at the inner decryption -----

  predicate RejectsPlaintext(payload: Bytes, s: State) {
    s.version > 0 && s.ready && !s.downgradeAllowed && !EndsWithMarker(payload)
  }

  predicate Retryable(r: Reason) {
    r != Rejected && r != InOrder
  }

  datatype Attempt = Success(data: Bytes) | Failure(reason: Reason)

  function Tried(env: Env, p: Datagram, payload: Bytes): Attempt {
    if env.user(p.id).None? then Failure(NoUserId) else
      match Decrypted(env.state, payload, env.native(p.id))
      case Ok(data) => Success(data)
      case NotReady => Failure(SessionNotReady)
      case PlaintextRejected => Failure(Rejected)
      case Busy => Failure(SessionBusy)
      case NoDecryptor => Failure(NoKey)
      case DecryptError => Failure(Failed)
  }

  /** The library call that an attempt makes, if it gets that far. */
  function Calls(env: Env, p: Datagram, payload: Bytes): seq<Offer> {
    if env.user(p.id).Some? && Consults(env.state, payload)
    then [Offer(p.id, env.state.generation, payload, env.native(p.id))] else []
  }

  /** `_try_dave_inner_decrypt`: what it does besides its result. */
  function AfterTry(l: Ledger, env: Env, p: Datagram, payload: Bytes): Ledger {
    var e := l.(offers := l.offers + Calls(env, p, payload));
    if Tried(env, p, payload).Success?
    then Marked(e, p.id, FlagsOf(e.flags, p.id).(innerDecrypted := true, needsInner := false, pending := false))
    else e
  }

  // ----- Deferring -----

  function MaxAge(env: Env): real {
    if env.state.preparedAt.Some? && env.now - env.state.preparedAt.value < GRACE then INITIAL_EPOCH_AGE else AGE
  }

  /** The queue with a new entry sorted in. */
  function Enqueued(queue: seq<Entry>, e: Entry): (r: seq<Entry>)
    ensures |r| == |queue| + 1
  {
    var longer := queue + [e];
    SortedBy(longer, longer[0].packet.sequence)
  }

  /** `_defer_pending_inner_packet`. */
  function Deferred(d: Dec, env: Env, p: Datagram, payload: Bytes, reason: Reason): Dec {
    var o := Observed(d, env.state.generation);
    var queue := Enqueued(QueueOf(o.buckets, p.ssrc), Entry(p, payload, reason, env.now, MaxAge(env)));
    var l := Marked(o.ledger, p.id, FlagsOf(o.ledger.flags, p.id).(pending := true, needsInner := true));
    var m := l.(counters := l.counters.(queued := l.counters.queued + 1));
    if |queue| > MAX_PER_SSRC then
      Dec(WithQueue(o.buckets, p.ssrc, queue[1..]), o.generation,
          Lost(m, queue[0].packet.id, m.counters.(overflow := m.counters.overflow + 1)))
    else
      Dec(WithQueue(o.buckets, p.ssrc, queue), o.generation, m)
  }

  function Lost(l: Ledger, id: nat, counters: Counters): Ledger {
    Marked(l, id, Dropping(FlagsOf(l.flags, id))).(counters := counters)
  }

  // ----- Draining -----

  datatype Verdict = Expire | Reject | Keep | Retry | Release(data: Bytes) | GiveUp

  /** What becomes of an entry; `blocked` once an earlier entry of its queue has to be retried. */
  function Judge(env: Env, e: Entry, blocked: bool): Verdict {
    if env.now - e.queuedAt >= e.maxAge then Expire
    else if RejectsPlaintext(e.payload, env.state) then Reject
    else if blocked then Keep
    else match Tried(env, e.packet, e.payload)
      case Success(data) => Release(data)
      case Failure(reason) => if Retryable(reason) then Retry else GiveUp
  }

  predicate Stays(v: Verdict) {
    v.Keep? || v.Retry?
  }

  function Settled(l: Ledger, env: Env, e: Entry, v: Verdict): Ledger {
    var id, c := e.packet.id, l.counters;
    match v
    case Expire => Lost(l, id, c.(expired := c.expired + 1))
    case Reject => Lost(l, id, c.(plaintext := c.plaintext + 1))
    case Keep => l
    case Retry => AfterTry(l, env, e.packet, e.payload)
    case GiveUp => Lost(AfterTry(l, env, e.packet, e.payload), id, c.(unrecoverable := c.unrecoverable + 1))
    case Release(data) =>
      var t := AfterTry(l, env, e.packet, e.payload);
      Marked(t, id, FlagsOf(t.flags, id).(recovered := true))
      .(data := t.data[id := data], ready := t.ready + [e.packet], counters := c.(recovered := c.recovered + 1))
  }

  /** One queue: the ledger afterwards, and the entries that stay. */
  function QueueDrained(l: Ledger, env: Env, queue: seq<Entry>, blocked: bool): (Ledger, seq<Entry>)
    decreases |queue|
  {
    if queue == [] then (l, []) else
      var v := Judge(env, queue[0], blocked);
      var (after, kept) := QueueDrained(Settled(l, env, queue[0], v), env, queue[1..], blocked || v.Retry?);
      (after, if Stays(v) then [queue[0]] + kept else kept)
  }

  function BucketsDrained(l: Ledger, env: Env, bs: seq<Bucket>): (Ledger, seq<Bucket>)
    decreases |bs|
  {
    if bs == [] then (l, []) else
      var (mid, kept) := QueueDrained(l, env, bs[0].queue, false);
      var (after, rest) := BucketsDrained(mid, env, bs[1..]);
      (after, if kept != [] then [Bucket(bs[0].ssrc, kept)] + rest else rest)
  }

  /** `_drain_pending_inner_packets`. */
  function Drained(d: Dec, env: Env): Dec {
    var o := Observed(d, env.state.generation);
    var (after, bs) := BucketsDrained(o.ledger, env, o.buckets);
    Dec(bs, o.generation, after)
  }

  /** `pop_recovered_rtp_packets`. */
  function Popped(d: Dec, env: Env): (Dec, seq<Datagram>) {
    var e := Drained(d, env);
    (e.(ledger := e.ledger.(ready := [])), e.ledger.ready)
  }

  // ----- A fresh packet -----

  /** A packet that takes the inner path: tried at once only if nothing of its SSRC is waiting. */
  function Inner(d: Dec, env: Env, p: Datagram, payload: Bytes): (Dec, Bytes) {
    if QueueOf(d.buckets, p.ssrc) != [] then (Deferred(d, env, p, payload, InOrder), payload)
    else
      var t := d.(ledger := AfterTry(d.ledger, env, p, payload));
      match Tried(env, p, payload)
      case Success(data) => (t, data)
      case Failure(reason) =>
        if Retryable(reason) then (Deferred(t, env, p, payload, reason), payload)
        else (t.(ledger := Marked(t.ledger, p.id, FlagsOf(t.ledger.flags, p.id).(dropped := true))), payload)
  }

  /** `_decrypt_rtp_aead_xchacha20_poly1305_rtpsize`; `payload` is the result of the transport half. */
  function Received(d: Dec, env: Env, p: Datagram, payload: Bytes): (Dec, Bytes) {
    var o := Observed(d.(ledger := Marked(d.ledger, p.id, NO_FLAGS)), env.state.generation);
    var l, f := o.ledger, FlagsOf(o.ledger.flags, p.id);
    if RejectsPlaintext(payload, env.state) then
      (o.(ledger := Marked(l, p.id, f.(needsInner := true, dropped := true))), [])
    else if env.state.version > 0 || DavePayload.Parse(payload).Some? then
      Inner(o.(ledger := Marked(l, p.id, f.(needsInner := true, pending := false))), env, p, payload)
    else if EndsWithMarker(payload) then
      (o.(ledger := Marked(l, p.id, f.(needsInner := true, dropped := true))), payload)
    else (o, payload)
  }

  // ----- The object -----

  class PacketDecryptor {
    const bridge: DaveBridge
    var pendingInner: seq<Bucket>
    var pendingReady: seq<Datagram>
    var sessionGeneration: Option<nat>
    var flags: map<nat, Flags>
    var data: map<nat, Bytes>
    var counters: Counters
    ghost var offers: seq<Offer>

    ghost function LedgerNow(): Ledger
      reads this
    {
      Ledger(pendingReady, flags, data, counters, offers)
    }

    ghost function View(): Dec
      reads this
    {
      Dec(pendingInner, sessionGeneration, LedgerNow())
    }

    ghost function EnvNow(c: Connection, now: real, user: nat -> Option<nat>, native: nat -> Native): Env
      reads this, bridge
    {
      Env(Refreshed(bridge.View(), c, now).state, now, user, native)
    }

    constructor (bridge: DaveBridge)
      ensures this.bridge == bridge && View() == NEW
    {
      this.bridge := bridge;
      pendingInner := [];
      pendingReady := [];
      sessionGeneration := None;
      flags := map[];
      data := map[];
      counters := ZERO;
      offers := [];
    }

    /** `_bridge_state`, with its two loops over what is pending. */
    method BridgeState(c: Connection, now: real) returns (s: State)
      modifies this, bridge
      ensures bridge.View() == Refreshed(old(bridge.View()), c, now) && s == bridge.state
      ensures View() == Observed(old(View()), s.generation)
    {
      s := bridge.Refresh(c, now);
      if sessionGeneration.Some? && s.generation != sessionGeneration.value {
        var i := 0;
        while i < |pendingInner|
          modifies this`flags, this`counters
          invariant i <= |pendingInner|
          invariant AllDropped(LedgerNow(), pendingInner[i..]) == AllDropped(old(LedgerNow()), pendingInner)
        {
          DropQueue(pendingInner[i].queue);
          i := i + 1;
        }
        pendingInner := [];
        pendingReady := [];
      }
      sessionGeneration := Some(s.generation);
    }

    method DropQueue(queue: seq<Entry>)
      modifies this`flags, this`counters
      ensures LedgerNow() == QueueDropped(old(LedgerNow()), queue)
    {
      var i := 0;
      while i < |queue|
        invariant i <= |queue|
        invariant QueueDropped(LedgerNow(), queue[i..]) == QueueDropped(old(LedgerNow()), queue)
      {
        var id := queue[i].packet.id;
        assert queue[i..][1..] == queue[i + 1..];
        flags := flags[id := Dropping(FlagsOf(flags, id))];
        counters := counters.(sessionReset := counters.sessionReset + 1);
        i := i + 1;
      }
    }

    /** Under the lock the bridge has been refreshed, and stays as it is. */
    ghost predicate Locked(c: Connection, now: real, env: Env)
      reads this, bridge
    {
      && Refreshed(bridge.View(), c, now) == bridge.View()
      && env.state == bridge.state && env.now == now
    }

    method TryDaveInnerDecrypt(c: Connection, now: real, user: nat -> Option<nat>, native: nat -> Native,
                               packet: Datagram, payload: Bytes, ghost env: Env) returns (r: Attempt)
      requires Locked(c, now, env) && env.user == user && env.native == native
      modifies this`flags, this`offers, bridge
      ensures Locked(c, now, env)
      ensures LedgerNow() == AfterTry(old(LedgerNow()), env, packet, payload)
      ensures r == Tried(env, packet, payload) && (r.Failure? ==> r.reason != InOrder)
    {
      if user(packet.id).None? {
        return Failure(NoUserId);
      }
      offers := offers + Calls(env, packet, payload);
      var outcome := bridge.DecryptAudio(c, now, payload, native(packet.id));
      match outcome {
        case Ok(plain) =>
          flags := flags[packet.id :=
            FlagsOf(flags, packet.id).(innerDecrypted := true, needsInner := false, pending := false)];
          r := Success(plain);
        case NotReady => r := Failure(SessionNotReady);
        case PlaintextRejected => r := Failure(Rejected);
        case Busy => r := Failure(SessionBusy);
        case NoDecryptor => r := Failure(NoKey);
        case DecryptError => r := Failure(Failed);
      }
    }

    lemma Stable(c: Connection, now: real, env: Env)
      requires Locked(c, now, env)
      ensures Refreshed(Refreshed(bridge.View(), c, now), c, now) == Refreshed(bridge.View(), c, now)
      ensures Refreshed(bridge.View(), c, now).state == bridge.state
    {
    }

    /** The overflow branch. */
    method DropOldest(queue: seq<Entry>) returns (rest: seq<Entry>)
      requires queue != []
      modifies this`flags, this`counters
      ensures rest == queue[1..]
      ensures LedgerNow() == var l := old(LedgerNow());
                             Lost(l, queue[0].packet.id, l.counters.(overflow := l.counters.overflow + 1))
    {
      Lose(queue[0].packet.id);
      counters := counters.(overflow := counters.overflow + 1);
      rest := queue[1..];
    }

    method DeferPendingInnerPacket(c: Connection, now: real, packet: Datagram, payload: Bytes, reason: Reason,
                                   ghost env: Env)
      requires Locked(c, now, env)
      modifies this, bridge
      ensures Locked(c, now, env)
      ensures View() == Deferred(old(View()), env, packet, payload, reason)
    {
      hide Observed, Enqueued, WithQueue, QueueOf, Refreshed, FlagsOf, Lost;
      Stable(c, now, env);
      var s := BridgeState(c, now);
      var grace := s.preparedAt.Some? && now - s.preparedAt.value < GRACE;
      var entry := Entry(packet, payload, reason, now, if grace then INITIAL_EPOCH_AGE else AGE);
      var queue := Enqueued(QueueOf(pendingInner, packet.ssrc), entry);
      flags := flags[packet.id := FlagsOf(flags, packet.id).(pending := true, needsInner := true)];
      counters := counters.(queued := counters.queued + 1);
      if |queue| > MAX_PER_SSRC {
        queue := DropOldest(queue);
      }
      pendingInner := WithQueue(pendingInner, packet.ssrc, queue);
    }

    /** The body of the inner loop of `_drain_pending_inner_packets`: one entry. */
    method DrainEntry(c: Connection, now: real, user: nat -> Option<nat>, native: nat -> Native,
                      e: Entry, blocked: bool, ghost env: Env) returns (stays: bool, retry: bool)
      requires Locked(c, now, env) && env.user == user && env.native == native
      modifies this`flags, this`counters, this`data, this`pendingReady, this`offers, bridge
      ensures Locked(c, now, env)
      ensures LedgerNow() == Settled(old(LedgerNow()), env, e, Judge(env, e, blocked))
      ensures stays == Stays(Judge(env, e, blocked)) && retry == Judge(env, e, blocked).Retry?
    {
      hide AfterTry, Tried, RejectsPlaintext, Retryable, FlagsOf, Refreshed;
      if now - e.queuedAt >= e.maxAge {
        Lose(e.packet.id);
        counters := counters.(expired := counters.expired + 1);
        return false, false;
      }
      if RejectsPlaintext(e.payload, bridge.state) {
        Lose(e.packet.id);
        counters := counters.(plaintext := counters.plaintext + 1);
        return false, false;
      }
      if blocked {
        return true, false;
      }
      var r := TryDaveInnerDecrypt(c, now, user, native, e.packet, e.payload, env);
      if r.Success? {
        flags := flags[e.packet.id := FlagsOf(flags, e.packet.id).(recovered := true)];
        data := data[e.packet.id := r.data];
        pendingReady := pendingReady + [e.packet];
        counters := counters.(recovered := counters.recovered + 1);
        return false, false;
      }
      if Retryable(r.reason) {
        return true, true;
      }
      Lose(e.packet.id);
      counters := counters.(unrecoverable := counters.unrecoverable + 1);
      return false, false;
    }

    /** The inner loop of `_drain_pending_inner_packets`, over one queue. */
    method DrainQueue(c: Connection, now: real, user: nat -> Option<nat>, native: nat -> Native,
                      queue: seq<Entry>, ghost env: Env) returns (kept: seq<Entry>)
      requires Locked(c, now, env) && env.user == user && env.native == native
      modifies this`flags, this`counters, this`data, this`pendingReady, this`offers, bridge
      ensures Locked(c, now, env)
      ensures (LedgerNow(), kept) == QueueDrained(old(LedgerNow()), env, queue, false)
    {
      hide Judge, Settled, Refreshed, QueueDrained;
      kept := [];
      var blocked := false;
      ghost var goal := QueueDrained(LedgerNow(), env, queue, false);
      assert queue[0..] == queue && [] + goal.1 == goal.1;
      for i := 0 to |queue|
        invariant Locked(c, now, env)
        invariant var (after, more) := QueueDrained(LedgerNow(), env, queue[i..], blocked);
                  goal == (after, kept + more)
      {
        Unfold(LedgerNow(), env, queue, i, blocked);
        var stays, retry := DrainEntry(c, now, user, native, queue[i], blocked, env);
        blocked := blocked || retry;
        Append(kept, queue[i], QueueDrained(LedgerNow(), env, queue[i + 1..], blocked).1);
        if stays {
          kept := kept + [queue[i]];
        }
      }
      assert queue[|queue|..] == [] && kept + [] == kept;
      DrainedEmpty(LedgerNow(), env, blocked);
    }

    method Lose(id: nat)
      modifies this`flags
      ensures LedgerNow() == Marked(old(LedgerNow()), id, Dropping(FlagsOf(old(flags), id)))
    {
      flags := flags[id := Dropping(FlagsOf(flags, id))];
    }

    /** `_drain_pending_inner_packets`: the items of the dictionary as it was, each replaced or deleted in place. */
    method DrainPendingInnerPackets(c: Connection, now: real, user: nat -> Option<nat>, native: nat -> Native,
                                    ghost env: Env)
      requires env == EnvNow(c, now, user, native)
      modifies this, bridge
      ensures Locked(c, now, env)
      ensures View() == Drained(old(View()), env)
    {
      hide QueueDrained, Refreshed, Observed, Stored;
      RefreshIsStable(bridge.View(), c, now, now);
      var s := BridgeState(c, now);
      var items := pendingInner;
      ghost var goal := BucketsDrained(LedgerNow(), env, items);
      ghost var generation := sessionGeneration;
      var n := 0;  // items that stay so far
      StoreNothing(items, goal.1);
      for i := 0 to |items|
        invariant Locked(c, now, env) && sessionGeneration == generation
        invariant n <= |pendingInner| && pendingInner[n..] == items[i..]
        invariant var (after, rest) := BucketsDrained(LedgerNow(), env, items[i..]);
                  goal == (after, pendingInner[..n] + rest)
      {
        BucketsUnfold(LedgerNow(), env, items, i);
        var kept := DrainQueue(c, now, user, native, items[i].queue, env);
        StoreOne(pendingInner, n, items, i, kept, BucketsDrained(LedgerNow(), env, items[i + 1..]).1);
        pendingInner := Stored(pendingInner, n, items[i].ssrc, kept);
        n := if kept != [] then n + 1 else n;
      }
      assert pendingInner == pendingInner[..n] + [];
    }

    method PopRecoveredRtpPackets(c: Connection, now: real, user: nat -> Option<nat>, native: nat -> Native)
      returns (ready: seq<Datagram>)
      modifies this, bridge
      ensures bridge.View() == Refreshed(old(bridge.View()), c, now)
      ensures (View(), ready) == Popped(old(View()), old(EnvNow(c, now, user, native)))
    {
      hide Drained;
      ghost var env := EnvNow(c, now, user, native);
      DrainPendingInnerPackets(c, now, user, native, env);
      ready := pendingReady;
      pendingReady := [];
    }

    /** `payload` is the result of the transport half. */
    method DecryptRtp(c: Connection, now: real, user: nat -> Option<nat>, native: nat -> Native,
                      packet: Datagram, payload: Bytes) returns (result: Bytes)
      modifies this, bridge
      ensures bridge.View() == Refreshed(old(bridge.View()), c, now)
      ensures (View(), result) == Received(old(View()), old(EnvNow(c, now, user, native)), packet, payload)
    {
      hide Deferred, AfterTry, Tried, Observed;
      ghost var env := EnvNow(c, now, user, native);
      flags := flags[packet.id := NO_FLAGS];
      var s := BridgeState(c, now);
      var marked := EndsWithMarker(payload);
      var parsed := DavePayload.ParseDavePayload(payload);
      if RejectsPlaintext(payload, s) {
        flags := flags[packet.id := FlagsOf(flags, packet.id).(needsInner := true, dropped := true)];
        return [];
      }
      result := payload;
      if s.version > 0 || parsed.Some? {
        flags := flags[packet.id := FlagsOf(flags, packet.id).(needsInner := true, pending := false)];
        var r := Failure(InOrder);
        if QueueOf(pendingInner, packet.ssrc) == [] {
          r := TryDaveInnerDecrypt(c, now, user, native, packet, payload, env);
        }
        if r.Success? {
          return r.data;
        }
        if r.reason == InOrder || Retryable(r.reason) {
          DeferPendingInnerPacket(c, now, packet, payload, r.reason, env);
        } else {
          flags := flags[packet.id := FlagsOf(flags, packet.id).(dropped := true)];
        }
      } else if marked {
        flags := flags[packet.id := FlagsOf(flags, packet.id).(needsInner := true, dropped := true)];
      }
    }
  }

  /** Item `n` gets a new queue, or is deleted when nothing is left of it. */
  function Stored(pending: seq<Bucket>, n: nat, ssrc: nat, kept: seq<Entry>): seq<Bucket>
    requires n < |pending|
  {
    if kept != [] then pending[n := Bucket(ssrc, kept)] else pending[..n] + pending[n + 1..]
  }

  lemma StoreNothing(items: seq<Bucket>, rest: seq<Bucket>)
    ensures items[0..] == items && items[..0] + rest == rest
  {
  }

  /** What is stored so far, followed by what is still to come, does not change. */
  lemma StoreOne(pending: seq<Bucket>, n: nat, items: seq<Bucket>, i: nat, kept: seq<Entry>, rest: seq<Bucket>)
    requires i < |items| && n < |pending| && pending[n..] == items[i..]
    ensures var m := if kept != [] then n + 1 else n;
            var now := Stored(pending, n, items[i].ssrc, kept);
            && m <= |now| && now[m..] == items[i + 1..]
            && now[..m] + rest == pending[..n] + if kept != [] then [Bucket(items[i].ssrc, kept)] + rest else rest
  {
    assert pending[n + 1..] == pending[n..][1..] && items[i + 1..] == items[i..][1..];
  }

  lemma BucketsUnfold(l: Ledger, env: Env, items: seq<Bucket>, i: nat)
    requires i < |items|
    ensures var (mid, kept) := QueueDrained(l, env, items[i].queue, false);
            var (after, rest) := BucketsDrained(mid, env, items[i + 1..]);
            BucketsDrained(l, env, items[i..])
            == (after, if kept != [] then [Bucket(items[i].ssrc, kept)] + rest else rest)
  {
    assert items[i..][1..] == items[i + 1..];
  }

  lemma Unfold(l: Ledger, env: Env, queue: seq<Entry>, i: nat, blocked: bool)
    requires i < |queue|
    ensures var e := queue[i];
            var v := Judge(env, e, blocked);
            var (after, more) := QueueDrained(Settled(l, env, e, v), env, queue[i + 1..], blocked || v.Retry?);
            QueueDrained(l, env, queue[i..], blocked) == (after, if Stays(v) then [e] + more else more)
  {
    hide Judge, Settled;
    assert queue[i..][1..] == queue[i + 1..];
  }

  lemma DrainedEmpty(l: Ledger, env: Env, blocked: bool)
    ensures QueueDrained(l, env, [], blocked) == (l, [])
  {
  }

  lemma Append(kept: seq<Entry>, e: Entry, more: seq<Entry>)
    ensures kept + ([e] + more) == (kept + [e]) + more
  {
  }
}
