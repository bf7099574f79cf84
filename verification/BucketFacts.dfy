/** The queues of all SSRCs together: who is in them, and how deferring and draining change that. */
module BucketFacts {
  import opened Modular
  import opened Deferral
  import opened DrainFacts

  function AllIds(bs: seq<Bucket>): set<nat> {
    if bs == [] then {} else IdSet(bs[0].queue) + AllIds(bs[1..])
  }

  function AllEntries(bs: seq<Bucket>): set<Entry> {
    if bs == [] then {} else EntrySet(bs[0].queue) + AllEntries(bs[1..])
  }

  function Keys(bs: seq<Bucket>): set<nat> {
    set b | b in bs :: b.ssrc
  }

  /** No packet is in two places. */
  ghost predicate DistinctAll(bs: seq<Bucket>) {
    bs == [] || (Distinct(bs[0].queue) && IdSet(bs[0].queue) !! AllIds(bs[1..]) && DistinctAll(bs[1..]))
  }

  /** The keys of a dictionary. */
  ghost predicate KeysDistinct(bs: seq<Bucket>) {
    bs == [] || (bs[0].ssrc !in Keys(bs[1..]) && KeysDistinct(bs[1..]))
  }

  lemma KeysCons(b: Bucket, rest: seq<Bucket>)
    ensures Keys([b] + rest) == {b.ssrc} + Keys(rest)
  {
    forall k | k in {b.ssrc} + Keys(rest)
      ensures k in Keys([b] + rest)
    {
      if k == b.ssrc {
        assert ([b] + rest)[0] == b;
      } else {
        var x :| x in rest && x.ssrc == k;
        assert x in [b] + rest;
      }
    }
  }

  // ----- Distinctness does not depend on the order -----

  lemma {:induction false} DistinctBySize(queue: seq<Entry>)
    ensures |IdSet(queue)| <= |queue|
    ensures Distinct(queue) <==> |IdSet(queue)| == |queue|
  {
    if queue == [] {
      Nothing();
    } else {
      DistinctBySize(queue[1..]);
      IdSetCons(queue[0], queue[1..]);
      assert queue == [queue[0]] + queue[1..];
    }
  }

  lemma SameEntries(q: seq<Entry>, r: seq<Entry>)
    requires multiset(q) == multiset(r)
    ensures EntrySet(q) == EntrySet(r) && IdSet(q) == IdSet(r)
    ensures Distinct(q) <==> Distinct(r)
  {
    forall e
      ensures e in q <==> e in r
    {
      assert e in multiset(q) <==> e in multiset(r);
    }
    assert |multiset(q)| == |q| && |multiset(r)| == |r|;
    DistinctBySize(q);
    DistinctBySize(r);
  }

  // ----- Sorting keeps the entries -----

  lemma {:induction false} PlacedKeeps(queue: seq<Entry>, e: Entry, anchor: Seq16)
    ensures multiset(Placed(queue, e, anchor)) == multiset(queue) + multiset{e}
  {
    hide Distance;
    if queue != [] && Distance(queue[|queue| - 1].packet.sequence, anchor) > Distance(e.packet.sequence, anchor) {
      PlacedKeeps(queue[..|queue| - 1], e, anchor);
      assert queue == queue[..|queue| - 1] + [queue[|queue| - 1]];
    }
  }

  lemma {:induction false} SortedByKeeps(queue: seq<Entry>, anchor: Seq16)
    ensures multiset(SortedBy(queue, anchor)) == multiset(queue)
  {
    hide Placed;
    if queue != [] {
      SortedByKeeps(queue[..|queue| - 1], anchor);
      PlacedKeeps(SortedBy(queue[..|queue| - 1], anchor), queue[|queue| - 1], anchor);
      assert queue == queue[..|queue| - 1] + [queue[|queue| - 1]];
    }
  }

  /** Deferring adds exactly one entry to a queue. */
  lemma EnqueuedAdds(queue: seq<Entry>, e: Entry)
    ensures EntrySet(Enqueued(queue, e)) == EntrySet(queue) + {e}
    ensures IdSet(Enqueued(queue, e)) == IdSet(queue) + {e.packet.id}
    ensures Distinct(queue) && e.packet.id !in IdSet(queue) ==> Distinct(Enqueued(queue, e))
  {
    hide SortedBy;
    var longer := queue + [e];
    SortedByKeeps(longer, longer[0].packet.sequence);
    SameEntries(longer, Enqueued(queue, e));
    var front := [e] + queue;
    assert multiset(front) == multiset(longer);
    SameEntries(longer, front);
    IdSetCons(e, queue);
    assert front[1..] == queue;
    assert EntrySet(front) == EntrySet(queue) + {e} by {
      assert front[0] == e;
      forall x | x in queue ensures x in front {}
    }
  }

  // ----- Replacing one queue -----

  lemma {:induction false} QueueIsInside(bs: seq<Bucket>, ssrc: nat)
    ensures IdSet(QueueOf(bs, ssrc)) <= AllIds(bs)
    ensures EntrySet(QueueOf(bs, ssrc)) <= AllEntries(bs)
    ensures DistinctAll(bs) ==> Distinct(QueueOf(bs, ssrc))
  {
    if bs == [] {
      Nothing();
    } else if bs[0].ssrc != ssrc {
      QueueIsInside(bs[1..], ssrc);
    }
  }

  lemma {:induction false} WithQueueIds(bs: seq<Bucket>, ssrc: nat, queue: seq<Entry>)
    requires DistinctAll(bs) && Distinct(queue)
    requires IdSet(queue) !! (AllIds(bs) - IdSet(QueueOf(bs, ssrc)))
    ensures AllIds(WithQueue(bs, ssrc, queue)) == (AllIds(bs) - IdSet(QueueOf(bs, ssrc))) + IdSet(queue)
    ensures DistinctAll(WithQueue(bs, ssrc, queue))
    decreases |bs|
  {
    hide IdSet, Distinct;
    Nothing();
    if bs == [] {
      OneBucket(ssrc, queue);
    } else if bs[0].ssrc == ssrc {
      assert WithQueue(bs, ssrc, queue)[1..] == bs[1..];
    } else {
      QueueIsInside(bs[1..], ssrc);
      WithQueueIds(bs[1..], ssrc, queue);
      assert WithQueue(bs, ssrc, queue)[1..] == WithQueue(bs[1..], ssrc, queue);
    }
  }

  lemma OneBucket(ssrc: nat, queue: seq<Entry>)
    ensures AllIds([Bucket(ssrc, queue)]) == IdSet(queue)
    ensures Distinct(queue) ==> DistinctAll([Bucket(ssrc, queue)])
    ensures AllEntries([Bucket(ssrc, queue)]) == EntrySet(queue)
  {
    assert [Bucket(ssrc, queue)][1..] == [];
  }

  lemma {:induction false} WithQueueEntries(bs: seq<Bucket>, ssrc: nat, queue: seq<Entry>)
    ensures AllEntries(WithQueue(bs, ssrc, queue)) <= AllEntries(bs) + EntrySet(queue)
    decreases |bs|
  {
    hide EntrySet;
    if bs == [] {
      OneBucket(ssrc, queue);
    } else if bs[0].ssrc == ssrc {
      assert WithQueue(bs, ssrc, queue)[1..] == bs[1..];
    } else {
      WithQueueEntries(bs[1..], ssrc, queue);
      assert WithQueue(bs, ssrc, queue)[1..] == WithQueue(bs[1..], ssrc, queue);
    }
  }

  lemma {:induction false} WithQueueKeys(bs: seq<Bucket>, ssrc: nat, queue: seq<Entry>)
    requires KeysDistinct(bs)
    ensures Keys(WithQueue(bs, ssrc, queue)) == Keys(bs) + {ssrc}
    ensures KeysDistinct(WithQueue(bs, ssrc, queue))
    ensures QueueOf(WithQueue(bs, ssrc, queue), ssrc) == queue
    ensures forall other | other != ssrc :: QueueOf(WithQueue(bs, ssrc, queue), other) == QueueOf(bs, other)
    decreases |bs|
  {
    hide Keys;
    NoKeys();
    if bs == [] {
      KeysCons(Bucket(ssrc, queue), []);
      assert [Bucket(ssrc, queue)] + [] == [Bucket(ssrc, queue)];
      assert [Bucket(ssrc, queue)][1..] == [];
    } else {
      assert bs == [bs[0]] + bs[1..];
      KeysCons(bs[0], bs[1..]);
      if bs[0].ssrc == ssrc {
        KeysCons(Bucket(ssrc, queue), bs[1..]);
        assert WithQueue(bs, ssrc, queue)[1..] == bs[1..];
      } else {
        WithQueueKeys(bs[1..], ssrc, queue);
        KeysCons(bs[0], WithQueue(bs[1..], ssrc, queue));
        assert WithQueue(bs, ssrc, queue)[1..] == WithQueue(bs[1..], ssrc, queue);
      }
    }
  }

  lemma NoKeys()
    ensures Keys([]) == {}
  {
  }

  // ----- Draining all queues -----

  function KeptAll(env: Env, bs: seq<Bucket>): seq<Bucket> {
    if bs == [] then [] else
      var kept := Kept(env, bs[0].queue, false);
      if kept != [] then [Bucket(bs[0].ssrc, kept)] + KeptAll(env, bs[1..]) else KeptAll(env, bs[1..])
  }

  function FreedAll(env: Env, bs: seq<Bucket>): seq<Datagram> {
    if bs == [] then [] else Freed(env, bs[0].queue, false) + FreedAll(env, bs[1..])
  }

  function AskedAll(env: Env, bs: seq<Bucket>): seq<Offer> {
    if bs == [] then [] else Asked(env, bs[0].queue, false) + AskedAll(env, bs[1..])
  }

  lemma {:induction false} BucketsDrainedParts(l: Ledger, env: Env, bs: seq<Bucket>)
    ensures var (after, kept) := BucketsDrained(l, env, bs);
            && kept == KeptAll(env, bs)
            && after.ready == l.ready + FreedAll(env, bs)
            && after.offers == l.offers + AskedAll(env, bs)
    decreases |bs|
  {
    hide QueueDrained, Kept, Freed, Asked;
    if bs != [] {
      QueueDrainedParts(l, env, bs[0].queue, false);
      var mid := QueueDrained(l, env, bs[0].queue, false).0;
      BucketsDrainedParts(mid, env, bs[1..]);
      Chain(l.ready, Freed(env, bs[0].queue, false), FreedAll(env, bs[1..]));
      Chain(l.offers, Asked(env, bs[0].queue, false), AskedAll(env, bs[1..]));
    }
  }

  /** What becomes of one SSRC's queue depends on that queue alone, whatever the other SSRCs do. */
  lemma {:induction false} SsrcsAreIndependent(env: Env, bs: seq<Bucket>, ssrc: nat)
    requires KeysDistinct(bs)
    ensures Keys(KeptAll(env, bs)) <= Keys(bs) && KeysDistinct(KeptAll(env, bs))
    ensures QueueOf(KeptAll(env, bs), ssrc) == Kept(env, QueueOf(bs, ssrc), false)
    decreases |bs|
  {
    hide Keys;
    NoKeys();
    if bs != [] {
      assert bs == [bs[0]] + bs[1..];
      KeysCons(bs[0], bs[1..]);
      SsrcsAreIndependent(env, bs[1..], ssrc);
      var kept := Kept(env, bs[0].queue, false);
      KeysCons(Bucket(bs[0].ssrc, kept), KeptAll(env, bs[1..]));
      assert ([Bucket(bs[0].ssrc, kept)] + KeptAll(env, bs[1..]))[1..] == KeptAll(env, bs[1..]);
      if bs[0].ssrc == ssrc && kept == [] {
        AbsentHasNoQueue(KeptAll(env, bs[1..]), ssrc);
      }
    }
  }

  lemma {:induction false} AbsentHasNoQueue(bs: seq<Bucket>, ssrc: nat)
    requires ssrc !in Keys(bs)
    ensures QueueOf(bs, ssrc) == []
  {
    if bs != [] {
      assert bs == [bs[0]] + bs[1..];
      KeysCons(bs[0], bs[1..]);
      AbsentHasNoQueue(bs[1..], ssrc);
    }
  }

  lemma {:induction false} KeptIsDistinct(env: Env, queue: seq<Entry>, blocked: bool)
    requires Distinct(queue)
    ensures Distinct(Kept(env, queue, blocked))
    ensures EntrySet(Kept(env, queue, blocked)) <= EntrySet(queue)
    decreases |queue|
  {
    hide Judge, IdSet;
    if queue != [] {
      var v := Judge(env, queue[0], blocked);
      var b := blocked || v.Retry?;
      KeptIsDistinct(env, queue[1..], b);
      PartsComeFrom(env, queue[1..], b);
      assert ([queue[0]] + Kept(env, queue[1..], b))[1..] == Kept(env, queue[1..], b);
      assert forall e | e in EntrySet(queue[1..]) :: e in queue;
    }
  }

  /** Draining only takes entries away. */
  lemma {:induction false} KeptAllComesFrom(env: Env, bs: seq<Bucket>)
    requires DistinctAll(bs)
    ensures AllIds(KeptAll(env, bs)) <= AllIds(bs)
    ensures Ids(FreedAll(env, bs)) <= AllIds(bs)
    ensures AllEntries(KeptAll(env, bs)) <= AllEntries(bs)
    ensures DistinctAll(KeptAll(env, bs))
    decreases |bs|
  {
    hide Kept, Freed, IdSet, EntrySet, Distinct, Ids;
    Nothing();
    if bs != [] {
      var queue := bs[0].queue;
      KeptIsDistinct(env, queue, false);
      PartsComeFrom(env, queue, false);
      KeptAllComesFrom(env, bs[1..]);
      IdsOfBoth(Freed(env, queue, false), FreedAll(env, bs[1..]));
      var kept := Kept(env, queue, false);
      assert ([Bucket(bs[0].ssrc, kept)] + KeptAll(env, bs[1..]))[1..] == KeptAll(env, bs[1..]);
    }
  }

  lemma IdsOfBoth(a: seq<Datagram>, b: seq<Datagram>)
    ensures Ids(a + b) == Ids(a) + Ids(b)
  {
    forall id | id in Ids(a) + Ids(b)
      ensures id in Ids(a + b)
    {
      if id in Ids(a) {
        var p :| p in a && p.id == id;
        assert p in a + b;
      } else {
        var p :| p in b && p.id == id;
        assert p in a + b;
      }
    }
  }

  /** Every pending packet stays as it was, or is handed on, or is flagged dropped; nothing else is touched. */
  lemma {:induction false} BucketsFate(l: Ledger, env: Env, bs: seq<Bucket>, id: nat)
    requires DistinctAll(bs)
    ensures var m := BucketsDrained(l, env, bs).0;
            && (id !in AllIds(bs) ==> Untouched(l, m, id))
            && (id in AllIds(bs) ==>
                  Fate(l, m, env, id in AllIds(KeptAll(env, bs)), id in Ids(FreedAll(env, bs)), id))
    decreases |bs|
  {
    hide QueueDrained, Kept, Freed, IdSet, Ids, FlagsOf;
    Nothing();
    if bs != [] {
      var queue := bs[0].queue;
      var kept := Kept(env, queue, false);
      var mid := QueueDrained(l, env, queue, false).0;
      QueueFate(l, env, queue, false, id);
      PartsComeFrom(env, queue, false);
      BucketsFate(mid, env, bs[1..], id);
      KeptAllComesFrom(env, bs[1..]);
      IdsOfBoth(Freed(env, queue, false), FreedAll(env, bs[1..]));
      QueueDrainedParts(l, env, queue, false);
      assert ([Bucket(bs[0].ssrc, kept)] + KeptAll(env, bs[1..]))[1..] == KeptAll(env, bs[1..]);
    }
  }

  // ----- How often a packet is handed on -----

  function Times(ps: seq<Datagram>, id: nat): nat {
    if ps == [] then 0 else (if ps[0].id == id then 1 else 0) + Times(ps[1..], id)
  }

  lemma {:induction false} TimesOfBoth(a: seq<Datagram>, b: seq<Datagram>, id: nat)
    ensures Times(a + b, id) == Times(a, id) + Times(b, id)
  {
    if a == [] {
      assert a + b == b;
    } else {
      TimesOfBoth(a[1..], b, id);
      assert (a + b)[1..] == a[1..] + b;
    }
  }

  lemma {:induction false} FreedOnce(env: Env, queue: seq<Entry>, blocked: bool, id: nat)
    requires Distinct(queue)
    ensures Times(Freed(env, queue, blocked), id) == if id in Ids(Freed(env, queue, blocked)) then 1 else 0
    decreases |queue|
  {
    hide Judge, Ids, IdSet;
    Nothing();
    if queue != [] {
      var v := Judge(env, queue[0], blocked);
      var b := blocked || v.Retry?;
      FreedOnce(env, queue[1..], b, id);
      PartsComeFrom(env, queue[1..], b);
      IdsCons(queue[0].packet, Freed(env, queue[1..], b));
      assert ([queue[0].packet] + Freed(env, queue[1..], b))[1..] == Freed(env, queue[1..], b);
    }
  }

  /** A drain hands a packet on at most once. */
  lemma {:induction false} FreedAllOnce(env: Env, bs: seq<Bucket>, id: nat)
    requires DistinctAll(bs)
    ensures Times(FreedAll(env, bs), id) == if id in Ids(FreedAll(env, bs)) then 1 else 0
    decreases |bs|
  {
    hide Freed, Ids, IdSet, Distinct;
    Nothing();
    if bs != [] {
      var queue := bs[0].queue;
      FreedOnce(env, queue, false, id);
      FreedAllOnce(env, bs[1..], id);
      PartsComeFrom(env, queue, false);
      KeptAllComesFrom(env, bs[1..]);
      TimesOfBoth(Freed(env, queue, false), FreedAll(env, bs[1..]), id);
      IdsOfBoth(Freed(env, queue, false), FreedAll(env, bs[1..]));
    }
  }

  // ----- A new generation -----

  lemma {:induction false} QueueDroppedFate(l: Ledger, queue: seq<Entry>, id: nat)
    ensures var m := QueueDropped(l, queue);
            && SameData(l, m, id)
            && FlagsOf(m.flags, id)
               == if id in IdSet(queue) then Dropping(FlagsOf(l.flags, id)) else FlagsOf(l.flags, id)
    decreases |queue|
  {
    hide IdSet;
    Nothing();
    if queue != [] {
      assert queue == [queue[0]] + queue[1..];
      IdSetCons(queue[0], queue[1..]);
      var k := queue[0].packet.id;
      QueueDroppedFate(Marked(l, k, Dropping(FlagsOf(l.flags, k)))
                       .(counters := l.counters.(sessionReset := l.counters.sessionReset + 1)), queue[1..], id);
    }
  }

  lemma {:induction false} AllDroppedFate(l: Ledger, bs: seq<Bucket>, id: nat)
    ensures var m := AllDropped(l, bs);
            && SameData(l, m, id)
            && FlagsOf(m.flags, id) == if id in AllIds(bs) then Dropping(FlagsOf(l.flags, id)) else FlagsOf(l.flags, id)
    decreases |bs|
  {
    hide IdSet, FlagsOf;
    if bs != [] {
      QueueDroppedFate(l, bs[0].queue, id);
      AllDroppedFate(QueueDropped(l, bs[0].queue), bs[1..], id);
    }
  }
}
