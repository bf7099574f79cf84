/** What one drain does to the queue of one SSRC, entry by entry. */
module DrainFacts {
  import opened Bytes
  import opened Dave
  import opened Deferral

  function EntrySet(queue: seq<Entry>): set<Entry> {
    set e | e in queue
  }

  function IdSet(queue: seq<Entry>): set<nat> {
    set e | e in queue :: e.packet.id
  }

  /** Every entry is for another packet. */
  ghost predicate Distinct(queue: seq<Entry>) {
    queue == [] || (queue[0].packet.id !in IdSet(queue[1..]) && Distinct(queue[1..]))
  }

  function Total(bs: seq<Bucket>): nat {
    if bs == [] then 0 else |bs[0].queue| + Total(bs[1..])
  }

  function Dropped(c: Counters): nat {
    c.expired + c.plaintext + c.unrecoverable
  }

  // ----- Conservation, for one queue and for all of them -----

  lemma SettledCounts(l: Ledger, env: Env, e: Entry, v: Verdict)
    ensures var m := Settled(l, env, e, v).counters;
            && m.queued == l.counters.queued && m.overflow == l.counters.overflow
            && m.sessionReset == l.counters.sessionReset
            && m.recovered + Dropped(m) == l.counters.recovered + Dropped(l.counters) + (if Stays(v) then 0 else 1)
  {
    hide AfterTry;
    TryKeepsCounters(l, env, e.packet, e.payload);
  }

  lemma TryKeepsCounters(l: Ledger, env: Env, p: Datagram, payload: Bytes)
    ensures AfterTry(l, env, p, payload).counters == l.counters
    ensures AfterTry(l, env, p, payload).ready == l.ready && AfterTry(l, env, p, payload).data == l.data
  {
  }

  /** An entry that does not stay is counted once, as recovered or as dropped. */
  lemma {:induction false} QueueConserves(l: Ledger, env: Env, queue: seq<Entry>, blocked: bool)
    ensures var (after, kept) := QueueDrained(l, env, queue, blocked);
            && after.counters.queued == l.counters.queued && after.counters.overflow == l.counters.overflow
            && after.counters.sessionReset == l.counters.sessionReset
            && after.counters.recovered + Dropped(after.counters) + |kept|
               == l.counters.recovered + Dropped(l.counters) + |queue|
    decreases |queue|
  {
    hide Judge, Settled;
    if queue != [] {
      var v := Judge(env, queue[0], blocked);
      SettledCounts(l, env, queue[0], v);
      QueueConserves(Settled(l, env, queue[0], v), env, queue[1..], blocked || v.Retry?);
    }
  }

  lemma {:induction false} BucketsConserve(l: Ledger, env: Env, bs: seq<Bucket>)
    ensures var (after, kept) := BucketsDrained(l, env, bs);
            && after.counters.queued == l.counters.queued && after.counters.overflow == l.counters.overflow
            && after.counters.sessionReset == l.counters.sessionReset
            && after.counters.recovered + Dropped(after.counters) + Total(kept)
               == l.counters.recovered + Dropped(l.counters) + Total(bs)
    decreases |bs|
  {
    hide QueueDrained;
    if bs != [] {
      QueueConserves(l, env, bs[0].queue, false);
      var (mid, kept) := QueueDrained(l, env, bs[0].queue, false);
      BucketsConserve(mid, env, bs[1..]);
      var rest := BucketsDrained(mid, env, bs[1..]).1;
      assert ([Bucket(bs[0].ssrc, kept)] + rest)[1..] == rest;
    }
  }

  lemma {:induction false} DropCounts(l: Ledger, queue: seq<Entry>)
    ensures QueueDropped(l, queue).counters
         == l.counters.(sessionReset := l.counters.sessionReset + |queue|)
    ensures QueueDropped(l, queue).ready == l.ready && QueueDropped(l, queue).data == l.data
    ensures QueueDropped(l, queue).offers == l.offers
    decreases |queue|
  {
    if queue != [] {
      var id := queue[0].packet.id;
      DropCounts(Marked(l, id, Dropping(FlagsOf(l.flags, id)))
                 .(counters := l.counters.(sessionReset := l.counters.sessionReset + 1)), queue[1..]);
    }
  }

  lemma {:induction false} AllDropCounts(l: Ledger, bs: seq<Bucket>)
    ensures AllDropped(l, bs).counters == l.counters.(sessionReset := l.counters.sessionReset + Total(bs))
    ensures AllDropped(l, bs).ready == l.ready && AllDropped(l, bs).data == l.data
    ensures AllDropped(l, bs).offers == l.offers
    decreases |bs|
  {
    if bs != [] {
      DropCounts(l, bs[0].queue);
      AllDropCounts(QueueDropped(l, bs[0].queue), bs[1..]);
    }
  }

  /** The dictionary operations, by size. */
  lemma {:induction false} WithQueueTotal(bs: seq<Bucket>, ssrc: nat, queue: seq<Entry>)
    ensures Total(WithQueue(bs, ssrc, queue)) == Total(bs) - |QueueOf(bs, ssrc)| + |queue|
    ensures |QueueOf(bs, ssrc)| <= Total(bs)
  {
    if bs != [] {
      if bs[0].ssrc == ssrc {
        assert ([Bucket(ssrc, queue)] + bs[1..])[1..] == bs[1..];
      } else {
        WithQueueTotal(bs[1..], ssrc, queue);
        assert WithQueue(bs, ssrc, queue)[1..] == WithQueue(bs[1..], ssrc, queue);
      }
    }
  }

  // ----- The law of conservation -----

  /** Everything ever queued is recovered, dropped for one of five reasons, or still pending. */
  ghost predicate Conserved(d: Dec) {
    var c := d.ledger.counters;
    c.queued == c.recovered + c.overflow + c.expired + c.plaintext + c.unrecoverable + c.sessionReset + Total(d.buckets)
  }

  lemma ObservedConserves(d: Dec, generation: nat)
    requires Conserved(d)
    ensures Conserved(Observed(d, generation))
  {
    AllDropCounts(d.ledger, d.buckets);
  }

  lemma DeferredConserves(d: Dec, env: Env, p: Datagram, payload: Bytes, reason: Reason)
    requires Conserved(d)
    ensures Conserved(Deferred(d, env, p, payload, reason))
  {
    hide Observed, Enqueued;
    ObservedConserves(d, env.state.generation);
    var o := Observed(d, env.state.generation);
    var queue := Enqueued(QueueOf(o.buckets, p.ssrc), Entry(p, payload, reason, env.now, MaxAge(env)));
    WithQueueTotal(o.buckets, p.ssrc, queue);
    WithQueueTotal(o.buckets, p.ssrc, queue[1..]);
  }

  lemma ReceivedConserves(d: Dec, env: Env, p: Datagram, payload: Bytes)
    requires Conserved(d)
    ensures Conserved(Received(d, env, p, payload).0)
  {
    hide Deferred, Observed, AfterTry, Tried;
    var e := d.(ledger := Marked(d.ledger, p.id, NO_FLAGS));
    ObservedConserves(e, env.state.generation);
    var o := Observed(e, env.state.generation);
    var f := FlagsOf(o.ledger.flags, p.id);
    var n := o.(ledger := Marked(o.ledger, p.id, f.(needsInner := true, pending := false)));
    assert Conserved(n);
    DeferredConserves(n, env, p, payload, InOrder);
    TryKeepsCounters(n.ledger, env, p, payload);
    var t := n.(ledger := AfterTry(n.ledger, env, p, payload));
    assert Conserved(t);
    if Tried(env, p, payload).Failure? {
      DeferredConserves(t, env, p, payload, Tried(env, p, payload).reason);
    }
  }

  lemma PoppedConserves(d: Dec, env: Env)
    requires Conserved(d)
    ensures Conserved(Popped(d, env).0)
  {
    hide Observed, BucketsDrained;
    ObservedConserves(d, env.state.generation);
    var o := Observed(d, env.state.generation);
    BucketsConserve(o.ledger, env, o.buckets);
  }

  // ----- The drain of one queue, as a function of that queue alone -----

  /** One verdict for each entry. */
  function Verdicts(env: Env, queue: seq<Entry>, blocked: bool): (vs: seq<Verdict>)
    ensures |vs| == |queue|
  {
    if queue == [] then [] else
      var v := Judge(env, queue[0], blocked);
      [v] + Verdicts(env, queue[1..], blocked || v.Retry?)
  }

  function Kept(env: Env, queue: seq<Entry>, blocked: bool): seq<Entry>
    decreases |queue|
  {
    if queue == [] then [] else
      var v := Judge(env, queue[0], blocked);
      var rest := Kept(env, queue[1..], blocked || v.Retry?);
      if Stays(v) then [queue[0]] + rest else rest
  }

  function Freed(env: Env, queue: seq<Entry>, blocked: bool): seq<Datagram>
    decreases |queue|
  {
    if queue == [] then [] else
      var v := Judge(env, queue[0], blocked);
      var rest := Freed(env, queue[1..], blocked || v.Retry?);
      if v.Release? then [queue[0].packet] + rest else rest
  }

  /** The library calls of one drain. */
  function Asked(env: Env, queue: seq<Entry>, blocked: bool): seq<Offer>
    decreases |queue|
  {
    if queue == [] then [] else
      var v := Judge(env, queue[0], blocked);
      (if v.Retry? || v.GiveUp? || v.Release? then Calls(env, queue[0].packet, queue[0].payload) else [])
      + Asked(env, queue[1..], blocked || v.Retry?)
  }

  lemma SettledAppends(l: Ledger, env: Env, e: Entry, blocked: bool)
    ensures var v := Judge(env, e, blocked);
            var m := Settled(l, env, e, v);
            && m.ready == l.ready + (if v.Release? then [e.packet] else [])
            && m.offers == l.offers
               + (if v.Retry? || v.GiveUp? || v.Release? then Calls(env, e.packet, e.payload) else [])
  {
  }

  /** What stays, what is handed on and what is asked do not depend on anything outside the queue. */
  lemma {:induction false} QueueDrainedParts(l: Ledger, env: Env, queue: seq<Entry>, blocked: bool)
    ensures var (after, kept) := QueueDrained(l, env, queue, blocked);
            && kept == Kept(env, queue, blocked)
            && after.ready == l.ready + Freed(env, queue, blocked)
            && after.offers == l.offers + Asked(env, queue, blocked)
    decreases |queue|
  {
    hide Judge, Settled, Calls;
    if queue != [] {
      var v := Judge(env, queue[0], blocked);
      var b := blocked || v.Retry?;
      SettledAppends(l, env, queue[0], blocked);
      QueueDrainedParts(Settled(l, env, queue[0], v), env, queue[1..], b);
      Chain(l.ready, if v.Release? then [queue[0].packet] else [], Freed(env, queue[1..], b));
      Chain(l.offers, if v.Retry? || v.GiveUp? || v.Release? then Calls(env, queue[0].packet, queue[0].payload) else [],
            Asked(env, queue[1..], b));
    }
  }

  lemma Chain<T>(a: seq<T>, b: seq<T>, c: seq<T>)
    ensures (a + b) + c == a + (b + c)
    ensures b == [] ==> b + c == c
  {
  }

  lemma Joined<T>(a: seq<T>, b: seq<T>)
    requires a != []
    ensures (a + b)[0] == a[0] && (a + b)[1..] == a[1..] + b
  {
  }

  /** No overtaking: once an entry stays, nothing behind it is handed on or tried, and only one entry is
      found to need a retry. */
  lemma {:induction false} NothingOvertakes(env: Env, queue: seq<Entry>, blocked: bool, i: nat, k: nat)
    requires i < k < |queue| && Stays(Verdicts(env, queue, blocked)[i])
    ensures var v := Verdicts(env, queue, blocked)[k]; v.Keep? || v.Expire? || v.Reject?
    decreases |queue|
  {
    var v := Judge(env, queue[0], blocked);
    if i > 0 {
      NothingOvertakes(env, queue[1..], blocked || v.Retry?, i - 1, k - 1);
    } else {
      BlockedOnlyKeeps(env, queue[1..], k - 1);
    }
  }

  lemma {:induction false} BlockedOnlyKeeps(env: Env, queue: seq<Entry>, k: nat)
    requires k < |queue|
    ensures var v := Verdicts(env, queue, true)[k]; v.Keep? || v.Expire? || v.Reject?
  {
    if k > 0 {
      BlockedOnlyKeeps(env, queue[1..], k - 1);
    }
  }

  /** Neither expired nor an unmarked payload in a strict session. */
  predicate IsDue(env: Env, e: Entry) {
    env.now - e.queuedAt < e.maxAge && !(Strict(env.state) && !EndsWithMarker(e.payload))
  }

  /** The sender is known, the session is ready, and the library opens the packet. */
  predicate Opens(env: Env, e: Entry) {
    env.user(e.packet.id).Some? && env.state.ready && env.native(e.packet.id).Plain?
  }

  /** Everything that stays is still young, blocked or not, and not refused. */
  lemma {:induction false} KeptAreYoung(env: Env, queue: seq<Entry>, blocked: bool)
    ensures forall e | e in Kept(env, queue, blocked) ::
              e in queue && env.now - e.queuedAt < e.maxAge && !(Strict(env.state) && !EndsWithMarker(e.payload))
    decreases |queue|
  {
    hide Tried;
    if queue != [] {
      var v := Judge(env, queue[0], blocked);
      KeptAreYoung(env, queue[1..], blocked || v.Retry?);
    }
  }

  /** What is handed on was in the queue, young, acceptable, and opened by the library. */
  ghost predicate Opened(env: Env, e: Entry) {
    IsDue(env, e) && Opens(env, e)
  }

  lemma {:induction false} FreedWereOpened(env: Env, queue: seq<Entry>, blocked: bool)
    ensures forall p | p in Freed(env, queue, blocked) :: exists e :: e in queue && e.packet == p && Opened(env, e)
    decreases |queue|
  {
    hide Opened;
    if queue != [] {
      var v := Judge(env, queue[0], blocked);
      FreedWereOpened(env, queue[1..], blocked || v.Retry?);
      forall p | p in Freed(env, queue, blocked)
        ensures exists e :: e in queue && e.packet == p && Opened(env, e)
      {
        if v.Release? && p == queue[0].packet {
          ReleaseIsOpened(env, queue[0], blocked);
          assert queue[0] in queue;
        } else {
          assert p in Freed(env, queue[1..], blocked || v.Retry?);
          var e :| e in queue[1..] && e.packet == p && Opened(env, e);
          assert e in queue;
        }
      }
    }
  }

  lemma ReleaseIsOpened(env: Env, e: Entry, blocked: bool)
    requires Judge(env, e, blocked).Release?
    ensures Opened(env, e) && Tried(env, e.packet, e.payload) == Success(Judge(env, e, blocked).data)
  {
  }

  // ----- The fate of one packet -----

  function Ids(ps: seq<Datagram>): set<nat> {
    set p | p in ps :: p.id
  }

  lemma IdSetCons(e: Entry, rest: seq<Entry>)
    ensures IdSet([e] + rest) == {e.packet.id} + IdSet(rest)
  {
    forall id | id in {e.packet.id} + IdSet(rest)
      ensures id in IdSet([e] + rest)
    {
      if id == e.packet.id {
        assert ([e] + rest)[0] == e;
      } else {
        var x :| x in rest && x.packet.id == id;
        assert x in [e] + rest;
      }
    }
  }

  lemma IdsCons(p: Datagram, rest: seq<Datagram>)
    ensures Ids([p] + rest) == {p.id} + Ids(rest)
  {
    forall id | id in {p.id} + Ids(rest)
      ensures id in Ids([p] + rest)
    {
      if id == p.id {
        assert ([p] + rest)[0] == p;
      } else {
        var x :| x in rest && x.id == id;
        assert x in [p] + rest;
      }
    }
  }

  /** Kept and freed packets come from the queue. */
  lemma {:induction false} PartsComeFrom(env: Env, queue: seq<Entry>, blocked: bool)
    ensures IdSet(Kept(env, queue, blocked)) <= IdSet(queue)
    ensures Ids(Freed(env, queue, blocked)) <= IdSet(queue)
    decreases |queue|
  {
    hide Judge, IdSet, Ids;
    if queue != [] {
      var v := Judge(env, queue[0], blocked);
      PartsComeFrom(env, queue[1..], blocked || v.Retry?);
      assert queue == [queue[0]] + queue[1..];
      IdSetCons(queue[0], queue[1..]);
      IdSetCons(queue[0], Kept(env, queue[1..], blocked || v.Retry?));
      IdsCons(queue[0].packet, Freed(env, queue[1..], blocked || v.Retry?));
    } else {
      Nothing();
    }
  }

  lemma Nothing()
    ensures IdSet([]) == {} && Ids([]) == {}
  {
  }

  /** How the marks of a packet change with its verdict. */
  ghost predicate Fate(l: Ledger, m: Ledger, env: Env, kept: bool, freed: bool, id: nat) {
    var was, now := FlagsOf(l.flags, id), FlagsOf(m.flags, id);
    && !(kept && freed)
    && (kept ==> now == was && SameData(l, m, id))
    && (freed ==> now == was.(innerDecrypted := true, needsInner := false, pending := false, recovered := true)
                  && id in m.data)
    && (!kept && !freed ==> now.dropped && !now.pending && SameData(l, m, id))
  }

  ghost predicate SameData(l: Ledger, m: Ledger, id: nat) {
    (id in l.data <==> id in m.data) && (id in l.data ==> l.data[id] == m.data[id])
  }

  ghost predicate Untouched(l: Ledger, m: Ledger, id: nat) {
    FlagsOf(l.flags, id) == FlagsOf(m.flags, id) && SameData(l, m, id)
  }

  lemma SettledFate(l: Ledger, env: Env, e: Entry, blocked: bool, id: nat)
    ensures var v := Judge(env, e, blocked);
            var m := Settled(l, env, e, v);
            && (id != e.packet.id ==> Untouched(l, m, id))
            && (id == e.packet.id ==> Fate(l, m, env, Stays(v), v.Release?, id))
            && (id == e.packet.id && v.Release? ==> m.data[id] == v.data)
  {
    hide Decrypted, Calls;
  }

  /** Every queued packet either stays as it was, or is handed on, or is flagged dropped; no other packet is
      touched. */
  lemma {:induction false} QueueFate(l: Ledger, env: Env, queue: seq<Entry>, blocked: bool, id: nat)
    requires Distinct(queue)
    ensures var m := QueueDrained(l, env, queue, blocked).0;
            && (id !in IdSet(queue) ==> Untouched(l, m, id))
            && (id in IdSet(queue) ==>
                  Fate(l, m, env, id in IdSet(Kept(env, queue, blocked)), id in Ids(Freed(env, queue, blocked)), id))
    decreases |queue|
  {
    hide Judge, Settled, IdSet, Ids, FlagsOf;
    Nothing();
    if queue != [] {
      var e, rest := queue[0], queue[1..];
      var v := Judge(env, e, blocked);
      var b := blocked || v.Retry?;
      assert queue == [e] + rest;
      IdSetCons(e, rest);
      IdSetCons(e, Kept(env, rest, b));
      IdsCons(e.packet, Freed(env, rest, b));
      SettledFate(l, env, e, blocked, id);
      QueueFate(Settled(l, env, e, v), env, rest, b, id);
      PartsComeFrom(env, rest, b);
    }
  }

  /** The data of a packet handed on is what the library returned for it. */
  lemma {:induction false} QueueData(l: Ledger, env: Env, queue: seq<Entry>, blocked: bool, p: Datagram)
    requires Distinct(queue) && p in Freed(env, queue, blocked)
    ensures var m := QueueDrained(l, env, queue, blocked).0;
            && p.id in m.data
            && exists o :: o in Asked(env, queue, blocked) && o.id == p.id && o.result == Plain(m.data[p.id])
    decreases |queue|
  {
    hide Settled, Distinct;
    var e, rest := queue[0], queue[1..];
    var v := Judge(env, e, blocked);
    var b := blocked || v.Retry?;
    DistinctSplits(queue);
    SettledFate(l, env, e, blocked, p.id);
    QueueFate(Settled(l, env, e, v), env, rest, b, p.id);
    if v.Release? && p == e.packet {
      var o := Offer(p.id, env.state.generation, e.payload, env.native(p.id));
      assert Calls(env, e.packet, e.payload) == [o];
      assert Asked(env, queue, blocked)[0] == o;
    } else {
      QueueData(Settled(l, env, e, v), env, rest, b, p);
      var m := QueueDrained(Settled(l, env, e, v), env, rest, b).0;
      var o :| o in Asked(env, rest, b) && o.id == p.id && o.result == Plain(m.data[p.id]);
      assert o in Asked(env, queue, blocked);
    }
  }

  lemma DistinctSplits(queue: seq<Entry>)
    requires Distinct(queue) && queue != []
    ensures Distinct(queue[1..]) && queue[0].packet.id !in IdSet(queue[1..])
  {
  }
}
