/** What a decoder takes, hands out and decodes, call by call, over whole runs (opus.py, buffer.py). */
module DecoderRuns {
  import opened Bytes
  import opened Modular
  import opened Heapq
  import opened JitterBuffer
  import opened PacketDecoding
  import DavePayload

  /** The decoder before call `k`. */
  function At(ssrc: nat, calls: seq<Call>, maxConceal: nat, k: nat): Decoder
    requires k <= |calls|
  {
    PacketDecoding.Run(ssrc, calls[..k], maxConceal).0
  }

  function EventAt(ssrc: nat, calls: seq<Call>, maxConceal: nat, k: nat): Event
    requires k < |calls|
  {
    PacketDecoding.Run(ssrc, calls, maxConceal).1[k]
  }

  lemma StepAt(ssrc: nat, calls: seq<Call>, maxConceal: nat, k: nat)
    requires k < |calls|
    ensures Step(At(ssrc, calls, maxConceal, k), calls[k], maxConceal)
         == (At(ssrc, calls, maxConceal, k + 1), EventAt(ssrc, calls, maxConceal, k))
  {
    hide Step;
    RunPrefix(ssrc, calls, maxConceal, k);
    assert calls[..k + 1][..k] == calls[..k];
  }

  // ----- What is accepted -----

  /** A packet is accepted if and only if nothing was passed yet, or it is ahead of the cursor by at most 10001. */
  lemma AcceptedExactly(ssrc: nat, calls: seq<Call>, lo: nat, hi: nat, maxConceal: nat, k: nat)
    requires Regular(calls, lo, hi) && k < |calls| && calls[k].PushCall?
    ensures var e := EventAt(ssrc, calls, maxConceal, k);
            var cursor := At(ssrc, calls, maxConceal, k).jitter.cursor;
            && e.Received? && e.packet == calls[k].packet
            && (e.accepted <==> cursor == -1 || 0 < calls[k].packet.sequence - cursor <= 10001)
  {
    hide Regular, Inv, PacketDecoding.Run;
    RegularUpTo(calls, lo, hi, k);
    IntervalFacts(calls, lo, hi);
    var list := RunKeepsInv(ssrc, calls[..k], lo, hi, maxConceal);
    StepAt(ssrc, calls, maxConceal, k);
    var d := At(ssrc, calls, maxConceal, k);
    CursorInside(d, PacketDecoding.Run(ssrc, calls[..k], maxConceal).1, list, PushedBy(calls[..k]), lo, hi, maxConceal);
    PushedExactly(d, calls[k].packet, lo, hi);
  }

  lemma CursorInside(d: Decoder, events: seq<Event>, list: seq<Packet>, all: set<Packet>, lo: nat, hi: nat,
                     maxConceal: nat)
    requires Inv(d, events, list, all, lo, hi, maxConceal)
    ensures d.jitter.cursor == -1 || lo <= d.jitter.cursor <= hi
    ensures Sound(DEFAULT, d.jitter) && Holds(d.jitter.buf, list, all)
  {
    hide Holds, Sound;
  }

  lemma PushedExactly(d: Decoder, p: Packet, lo: nat, hi: nat)
    requires lo <= p.sequence <= hi && hi - lo < 55535 && (d.jitter.cursor == -1 || lo <= d.jitter.cursor <= hi)
    ensures PushPacket(d, p).1
         == Received(p, d.jitter.cursor == -1 || 0 < p.sequence - d.jitter.cursor <= 10001)
  {
    hide Cleaned, Heapq.Push;
    if d.jitter.cursor != -1 {
      GapPlain(d.jitter.cursor, p.sequence);
    }
  }

  /** So where numbers span at most 10000, exactly what is not behind is accepted. */
  lemma AcceptedIfAhead(ssrc: nat, calls: seq<Call>, lo: nat, hi: nat, maxConceal: nat, k: nat)
    requires Regular(calls, lo, hi) && hi - lo <= 10000 && k < |calls| && calls[k].PushCall?
    ensures var e := EventAt(ssrc, calls, maxConceal, k);
            var cursor := At(ssrc, calls, maxConceal, k).jitter.cursor;
            e.Received? && (e.accepted <==> cursor == -1 || calls[k].packet.sequence > cursor)
  {
    hide Regular, Inv, PacketDecoding.Run;
    AcceptedExactly(ssrc, calls, lo, hi, maxConceal, k);
    RegularUpTo(calls, lo, hi, k);
    IntervalFacts(calls, lo, hi);
    var list := RunKeepsInv(ssrc, calls[..k], lo, hi, maxConceal);
    CursorInside(At(ssrc, calls, maxConceal, k), PacketDecoding.Run(ssrc, calls[..k], maxConceal).1, list,
                 PushedBy(calls[..k]), lo, hi, maxConceal);
  }

  // ----- What becomes of an accepted packet -----

  /** Accepting the packet of call `n` into a full buffer pushed out `p`, the least of all. */
  ghost predicate PushedOutAt(ssrc: nat, calls: seq<Call>, maxConceal: nat, n: nat, p: Packet)
    requires n < |calls|
  {
    && calls[n].PushCall? && EventAt(ssrc, calls, maxConceal, n) == Received(calls[n].packet, true)
    && |At(ssrc, calls, maxConceal, n).jitter.buf| == 10
    && p.sequence <= calls[n].packet.sequence
    && forall q | q in At(ssrc, calls, maxConceal, n).jitter.buf :: p.sequence <= q.sequence
  }

  ghost predicate HandedOutAt(ssrc: nat, calls: seq<Call>, maxConceal: nat, n: nat, p: Packet)
    requires n < |calls|
  {
    var e := EventAt(ssrc, calls, maxConceal, n);
    e.Emitted? && e.packet == p
  }

  lemma PopMoves(d: Decoder, list: seq<Packet>, all: set<Packet>, lo: nat, hi: nat, maxConceal: nat, wantsOpus: bool,
                 p: Packet)
    requires Ahead(d.jitter, list, all, lo, hi) && p in d.jitter.buf
    ensures var (d', e) := PopData(d, maxConceal, wantsOpus);
            p in d'.jitter.buf || (e.Emitted? && e.packet == p)
  {
    hide Heapq.Pop, Choose, Ordered, Coherent, Sorted;
    var j := d.jitter;
    if j.hasItem {
      PopKeeps(j.buf);
      assert p in multiset(j.buf);
      assert p != j.buf[0] ==> p in multiset(Heapq.Pop(j.buf));
      assert j.buf[0] in multiset(j.buf) && j.buf[0] in multiset(list) && j.buf[0] in list;
      assert Eligible(j.buf[0], j.cursor, lo, hi);
    }
  }

  lemma PushMoves(d: Decoder, list: seq<Packet>, all: set<Packet>, lo: nat, hi: nat, p: Packet, q: Packet)
    requires Ahead(d.jitter, list, all, lo, hi) && p in all && (q in d.jitter.buf || q == p)
    requires PushPacket(d, p).1.accepted
    ensures var (d', e) := PushPacket(d, p);
            || q in d'.jitter.buf
            || (|d.jitter.buf| == 10 && q.sequence <= p.sequence
                && forall x | x in d.jitter.buf :: q.sequence <= x.sequence)
  {
    hide Heapq.Push, Heapq.Pop, Sorted, Ordered, Coherent;
    var j := d.jitter;
    var longer := Heapq.Push(j.buf, p);
    PushKeeps(j.buf, p);
    assert q in multiset(longer);
    assert |multiset(longer)| == |longer| && |multiset(j.buf)| == |j.buf|;
    if |longer| > 10 {
      PopKeeps(longer);
      LeastIsFirst(j.buf, p, all);
      var rest := Heapq.Pop(longer);
      assert q != longer[0] ==> q in multiset(rest);
      assert |multiset(rest)| == |rest| == 10;
      assert Cleaned(DEFAULT, longer) == rest;
    }
  }

  /** The root of the heap that a push leaves is the least of all. */
  lemma LeastIsFirst(buf: seq<Packet>, p: Packet, all: set<Packet>)
    requires Ordered(buf) && Within(buf, all) && Coherent(all) && p in all
    ensures var longer := Heapq.Push(buf, p);
            longer != [] && longer[0].sequence <= p.sequence && forall x | x in buf :: longer[0].sequence <= x.sequence
  {
    hide Heapq.Push, Ordered;
    var longer := Heapq.Push(buf, p);
    PushKeeps(buf, p);
    PushOrders(buf, p, all);
    assert p in multiset(longer);
    forall x | x in buf || x == p
      ensures longer[0].sequence <= x.sequence
    {
      assert x in multiset(longer) && x in longer;
      var i :| 0 <= i < |longer| && longer[i] == x;
      RootIsLeast(longer, i);
    }
  }

  /** What is known before call `n` of a regular run. */
  lemma StateAt(ssrc: nat, calls: seq<Call>, lo: nat, hi: nat, maxConceal: nat, n: nat) returns (list: seq<Packet>)
    requires Regular(calls, lo, hi) && n <= |calls|
    ensures Inv(At(ssrc, calls, maxConceal, n), PacketDecoding.Run(ssrc, calls[..n], maxConceal).1, list,
                PushedBy(calls[..n]), lo, hi, maxConceal)
    ensures Ahead(At(ssrc, calls, maxConceal, n).jitter, list, PushedBy(calls), lo, hi)
  {
    hide Regular, PacketDecoding.Run, Ahead, Caught, Bounded;
    RegularUpTo(calls, lo, hi, n);
    list := RunKeepsInv(ssrc, calls[..n], lo, hi, maxConceal);
    PushedByIsCoherent(calls, lo, hi);
    PushedByPrefix(calls, n);
    AheadOfMore(At(ssrc, calls, maxConceal, n).jitter, list, PushedBy(calls[..n]), PushedBy(calls), lo, hi);
  }

  lemma PushedByPrefix(calls: seq<Call>, n: nat)
    requires n <= |calls|
    ensures PushedBy(calls[..n]) <= PushedBy(calls)
    ensures forall i | 0 <= i < |calls| && calls[i].PushCall? :: calls[i].packet in PushedBy(calls)
  {
    forall p | p in PushedBy(calls[..n])
      ensures p in PushedBy(calls)
    {
      var k :| 0 <= k < n && calls[..n][k].PushCall? && calls[..n][k].packet == p;
      assert calls[k].packet == p;
    }
  }

  lemma AheadOfMore(j: Jitter, list: seq<Packet>, all: set<Packet>, more: set<Packet>, lo: nat, hi: nat)
    requires Ahead(j, list, all, lo, hi) && all <= more && Coherent(more)
    ensures Ahead(j, list, more, lo, hi)
  {
    hide Sound, Sorted, Ordered;
  }

  /** A packet held before a call is held after it, or is handed out, or pushed out. */
  lemma HeldMoves(ssrc: nat, calls: seq<Call>, lo: nat, hi: nat, maxConceal: nat, n: nat, p: Packet)
    requires Regular(calls, lo, hi) && n < |calls|
    requires p in At(ssrc, calls, maxConceal, n).jitter.buf
             || (calls[n] == PushCall(p) && EventAt(ssrc, calls, maxConceal, n) == Received(p, true))
    ensures || p in At(ssrc, calls, maxConceal, n + 1).jitter.buf
            || HandedOutAt(ssrc, calls, maxConceal, n, p) || PushedOutAt(ssrc, calls, maxConceal, n, p)
  {
    hide Regular, PacketDecoding.Run, PopData, PushPacket, Ahead, At, EventAt;
    var list := StateAt(ssrc, calls, lo, hi, maxConceal, n);
    StepAt(ssrc, calls, maxConceal, n);
    var d := At(ssrc, calls, maxConceal, n);
    PushedByPrefix(calls, n);
    match calls[n]
    case PushCall(q) =>
      PushEvent(d, q);
      if PushPacket(d, q).1.accepted {
        PushMoves(d, list, PushedBy(calls), lo, hi, q, p);
      } else {
        RefusedStays(d, q);
      }
    case PopCall(opus) => PopMoves(d, list, PushedBy(calls), lo, hi, maxConceal, opus, p);
  }

  lemma PushEvent(d: Decoder, p: Packet)
    ensures PushPacket(d, p).1.Received? && PushPacket(d, p).1.packet == p
  {
  }

  lemma RefusedStays(d: Decoder, p: Packet)
    requires PushPacket(d, p).1 == Received(p, false)
    ensures PushPacket(d, p).0 == d
  {
  }

  /** Over every run: an accepted packet is still held, or was handed out since, or was pushed out of a full buffer as
      the least of all. */
  lemma {:induction false} AcceptedIsAccountedFor(ssrc: nat, calls: seq<Call>, lo: nat, hi: nat, maxConceal: nat,
                                                  k: nat, m: nat)
    requires Regular(calls, lo, hi) && k < m <= |calls|
    requires calls[k].PushCall? && EventAt(ssrc, calls, maxConceal, k) == Received(calls[k].packet, true)
    ensures var p := calls[k].packet;
            || p in At(ssrc, calls, maxConceal, m).jitter.buf
            || (exists n :: k < n < m && HandedOutAt(ssrc, calls, maxConceal, n, p))
            || (exists n :: k <= n < m && PushedOutAt(ssrc, calls, maxConceal, n, p))
    decreases m
  {
    hide Regular, At, EventAt, PushedOutAt, HandedOutAt;
    var p := calls[k].packet;
    if m == k + 1 {
      HeldMoves(ssrc, calls, lo, hi, maxConceal, k, p);
      ReceivedIsNotHandedOut(ssrc, calls, maxConceal, k, p);
    } else {
      AcceptedIsAccountedFor(ssrc, calls, lo, hi, maxConceal, k, m - 1);
      if p in At(ssrc, calls, maxConceal, m - 1).jitter.buf {
        HeldMoves(ssrc, calls, lo, hi, maxConceal, m - 1, p);
      }
    }
  }

  lemma ReceivedIsNotHandedOut(ssrc: nat, calls: seq<Call>, maxConceal: nat, n: nat, p: Packet)
    requires n < |calls| && EventAt(ssrc, calls, maxConceal, n).Received?
    ensures !HandedOutAt(ssrc, calls, maxConceal, n, p)
  {
  }

  // ----- What is decoded -----

  /** The audio can be decoded as it is: neither waiting for inner decryption nor in DAVE form. */
  ghost predicate Clear(p: Packet) {
    !p.needsInner && !DavePayload.Wrapped(p.payload)
  }

  lemma LooksWrapped(payload: Bytes)
    ensures LooksLikeDave(payload) <==> DavePayload.Wrapped(payload)
  {
    hide DavePayload.Wrapped;
    DavePayload.AcceptsExactlyWellFormed(payload);
    ParsedIsLong(payload);
  }

  lemma ParsedIsLong(payload: Bytes)
    ensures DavePayload.Parse(payload).Some? ==> |payload| > 10 && EndsWithMarker(payload)
  {
  }

  /** Over every run: a decoding sink gets each genuine packet's own audio decoded, exactly if it is clear. */
  lemma DecodesExactly(ssrc: nat, calls: seq<Call>, maxConceal: nat, k: nat)
    requires k < |calls| && calls[k].PopCall?
    requires var e := EventAt(ssrc, calls, maxConceal, k); e.Emitted? && e.packet.genuine
    ensures var e := EventAt(ssrc, calls, maxConceal, k);
            e.choice == (if calls[k].wantsOpus then NotDecoded
                         else if Clear(e.packet) then Decode(e.packet.payload)
                         else if e.packet.needsInner then InnerSkipped
                         else WrappedSkipped)
  {
    hide PacketDecoding.Run, DavePayload.Wrapped, LooksLikeDave;
    StepAt(ssrc, calls, maxConceal, k);
    ChoiceOfGenuine(At(ssrc, calls, maxConceal, k), maxConceal, calls[k].wantsOpus);
    LooksWrapped(EventAt(ssrc, calls, maxConceal, k).packet.payload);
  }

  lemma ChoiceOfGenuine(d: Decoder, maxConceal: nat, wantsOpus: bool)
    requires var e := PopData(d, maxConceal, wantsOpus).1; e.Emitted? && e.packet.genuine
    ensures var e := PopData(d, maxConceal, wantsOpus).1;
            e.choice == (if wantsOpus then NotDecoded
                         else if e.packet.needsInner then InnerSkipped
                         else if LooksLikeDave(e.packet.payload) then WrappedSkipped
                         else Decode(e.packet.payload))
  {
    hide LooksLikeDave, Heapq.Pop;
  }

  /** Over every regular run: a synthetic packet is made up from the error correction data of the packet numbered one
      above, exactly if that one is held and clear, and concealed without exactly if it is not held. */
  lemma ConcealsExactly(ssrc: nat, calls: seq<Call>, lo: nat, hi: nat, maxConceal: nat, k: nat)
    requires Regular(calls, lo, hi) && k < |calls| && calls[k] == PopCall(false)
    requires var e := EventAt(ssrc, calls, maxConceal, k); e.Emitted? && !e.packet.genuine
    ensures var e := EventAt(ssrc, calls, maxConceal, k);
            var held := At(ssrc, calls, maxConceal, k).jitter.buf;
            && (forall q | q in held && q.sequence == e.packet.sequence + 1 ::
                  e.choice == if Clear(q) then Fec(q) else FecSkipped)
            && ((forall q | q in held :: q.sequence != e.packet.sequence + 1) ==> e.choice == Plc)
  {
    hide Inv, PacketDecoding.Run, PopData, Regular, DavePayload.Wrapped;
    IntervalFacts(calls, lo, hi);
    RegularUpTo(calls, lo, hi, k);
    var list := RunKeepsInv(ssrc, calls[..k], lo, hi, maxConceal);
    var (d, events) := PacketDecoding.Run(ssrc, calls[..k], maxConceal);
    StepAt(ssrc, calls, maxConceal, k);
    FakeMeansConcealing(d, events, list, PushedBy(calls[..k]), lo, hi, maxConceal, false);
    ConcealedWith(d, events, list, PushedBy(calls[..k]), lo, hi, maxConceal);
    LooksWrapped(d.jitter.buf[0].payload);
  }

  lemma ConcealedWith(d: Decoder, events: seq<Event>, list: seq<Packet>, all: set<Packet>,
                      lo: nat, hi: nat, maxConceal: nat)
    requires Inv(d, events, list, all, lo, hi, maxConceal) && hi < WRAP
    requires !d.jitter.hasItem && 0 < Gap(d.jitter) <= maxConceal
    ensures var e := PopData(d, maxConceal, false).1;
            && e.Emitted? && !e.packet.genuine && d.jitter.buf != []
            && (forall q | q in d.jitter.buf && q.sequence == e.packet.sequence + 1 :: q == d.jitter.buf[0])
            && e.choice == if d.jitter.buf[0].sequence != e.packet.sequence + 1 then Plc
                           else if d.jitter.buf[0].needsInner || LooksLikeDave(d.jitter.buf[0].payload) then FecSkipped
                           else Fec(d.jitter.buf[0])
  {
    hide LooksLikeDave;
    var j := d.jitter;
    NothingReady(d, events, list, all, lo, hi, maxConceal);
    assert d.lastSeq == j.cursor;
    assert j.buf[0] == list[0];
    assert Eligible(list[0], j.cursor, lo, hi);
    forall q | q in j.buf
      ensures q == list[0] || q.sequence > list[0].sequence
    {
      assert q in multiset(j.buf) && q in multiset(list) && q in list;
      SortedFirst(list, all, j.buf);
    }
  }

  lemma SortedFirst(list: seq<Packet>, all: set<Packet>, buf: seq<Packet>)
    requires Holds(buf, list, all)
    ensures forall q | q in list :: q == list[0] || q.sequence > list[0].sequence
  {
  }

  // ----- What a pop does -----

  ghost predicate LeastHeld(buf: seq<Packet>, q: Packet) {
    q in buf && forall x | x in buf :: q.sequence <= x.sequence
  }

  /** What the decoder holds is the same but for `q`, if it was handed out. */
  ghost predicate HeldBut(buf: seq<Packet>, now: seq<Packet>, out: bool, q: Packet) {
    multiset(now) == if out then multiset(buf) - multiset{q} else multiset(buf)
  }

  /** What a pop does, with `q` the least packet held: hand it out, or a synthetic one in its stead, or jump. */
  ghost predicate PopsAs(d: Decoder, e: Event, d': Decoder, q: Packet, maxConceal: nat) {
    var cursor := d.jitter.cursor;
    var missing := q.sequence - cursor - 1;
    if |d.jitter.buf| > 1 && (cursor == -1 || missing == 0 || |d.jitter.buf| >= 10) then
      e.Emitted? && e.packet == q && d'.jitter.cursor == q.sequence && HeldBut(d.jitter.buf, d'.jitter.buf, true, q)
    else if cursor == -1 || missing == 0 then
      e == Quiet && d' == d
    else if missing <= maxConceal then
      && e.Emitted? && !e.packet.genuine && e.packet.sequence == cursor + 1
      && d'.jitter.cursor == cursor + 1 && d'.jitter.buf == d.jitter.buf
    else
      e == Skipped && d'.jitter.cursor == q.sequence - 1 && d'.jitter.buf == d.jitter.buf
  }

  lemma PopExactly(ssrc: nat, calls: seq<Call>, lo: nat, hi: nat, maxConceal: nat, k: nat)
    requires Regular(calls, lo, hi) && k < |calls| && calls[k].PopCall?
    ensures var d, e := At(ssrc, calls, maxConceal, k), EventAt(ssrc, calls, maxConceal, k);
            && (d.jitter.buf == [] ==> e == Quiet && At(ssrc, calls, maxConceal, k + 1) == d)
            && (forall q :: LeastHeld(d.jitter.buf, q) ==>
                  PopsAs(d, e, At(ssrc, calls, maxConceal, k + 1), q, maxConceal))
  {
    hide Inv, PacketDecoding.Run, PopData, Regular, PopsAs, LeastHeld;
    IntervalFacts(calls, lo, hi);
    RegularUpTo(calls, lo, hi, k);
    var list := RunKeepsInv(ssrc, calls[..k], lo, hi, maxConceal);
    var (d, events) := PacketDecoding.Run(ssrc, calls[..k], maxConceal);
    StepAt(ssrc, calls, maxConceal, k);
    PopAs(d, events, list, PushedBy(calls[..k]), lo, hi, maxConceal, calls[k].wantsOpus);
    forall q | LeastHeld(d.jitter.buf, q)
      ensures d.jitter.buf != [] && q == d.jitter.buf[0]
    {
      LeastIsRoot(d, events, list, PushedBy(calls[..k]), lo, hi, maxConceal, q);
    }
  }

  lemma LeastIsRoot(d: Decoder, events: seq<Event>, list: seq<Packet>, all: set<Packet>,
                    lo: nat, hi: nat, maxConceal: nat, q: Packet)
    requires Inv(d, events, list, all, lo, hi, maxConceal) && LeastHeld(d.jitter.buf, q)
    ensures d.jitter.buf != [] && q == d.jitter.buf[0]
  {
    var buf := d.jitter.buf;
    HeadOf(buf, list, all);
    assert q in multiset(buf) && q in multiset(list) && q in list;
    assert buf[0] in buf;
    SortedFirst(list, all, buf);
  }

  lemma PopAs(d: Decoder, events: seq<Event>, list: seq<Packet>, all: set<Packet>,
              lo: nat, hi: nat, maxConceal: nat, wantsOpus: bool)
    requires Inv(d, events, list, all, lo, hi, maxConceal) && hi < WRAP
    ensures var (d', e) := PopData(d, maxConceal, wantsOpus);
            if d.jitter.buf == [] then e == Quiet && d' == d else PopsAs(d, e, d', d.jitter.buf[0], maxConceal)
  {
    hide LooksLikeDave, Heapq.Pop, Holds, Bounded;
    GapBefore(d, events, list, all, lo, hi, maxConceal);
    LengthOf(d.jitter, list, all);
    if d.jitter.hasItem {
      PopKeeps(d.jitter.buf);
      GenuineRoot(d, list, all, lo, hi);
    } else if d.jitter.buf != [] {
      assert Eligible(list[0], d.jitter.cursor, lo, hi);
    }
  }

  lemma GenuineRoot(d: Decoder, list: seq<Packet>, all: set<Packet>, lo: nat, hi: nat)
    requires Ahead(d.jitter, list, all, lo, hi) && d.jitter.buf != []
    ensures d.jitter.buf[0].genuine && d.jitter.cursor < d.jitter.buf[0].sequence <= hi
  {
    HeadOf(d.jitter.buf, list, all);
    assert Eligible(list[0], d.jitter.cursor, lo, hi);
  }

  // ----- The numbers of a synthetic packet -----

  ghost predicate Remembers(d: Decoder, events: seq<Event>, n: nat)
    requires n <= |events|
    decreases n
  {
    if n == 0 then d.lastSeq == -1 && d.lastTs == -1
    else match events[n - 1]
      case Emitted(p, _, _) => d.lastSeq == p.sequence && d.lastTs == p.timestamp
      case _ => Remembers(d, events, n - 1)
  }

  lemma {:induction false} RunRemembers(ssrc: nat, calls: seq<Call>, maxConceal: nat, k: nat)
    requires k <= |calls|
    ensures Remembers(At(ssrc, calls, maxConceal, k), PacketDecoding.Run(ssrc, calls, maxConceal).1, k)
    ensures At(ssrc, calls, maxConceal, k).ssrc == ssrc
  {
    hide PacketDecoding.Run;
    if k == 0 {
      NothingYet(ssrc, calls, maxConceal);
    } else {
      RunRemembers(ssrc, calls, maxConceal, k - 1);
      StepAt(ssrc, calls, maxConceal, k - 1);
      StepLast(At(ssrc, calls, maxConceal, k - 1), calls[k - 1], maxConceal);
      if !EventAt(ssrc, calls, maxConceal, k - 1).Emitted? {
        RememberedStill(At(ssrc, calls, maxConceal, k - 1), At(ssrc, calls, maxConceal, k),
                        PacketDecoding.Run(ssrc, calls, maxConceal).1, k - 1);
      }
    }
  }

  lemma NothingYet(ssrc: nat, calls: seq<Call>, maxConceal: nat)
    ensures At(ssrc, calls, maxConceal, 0) == FreshDecoder(ssrc)
  {
  }

  lemma StepLast(d: Decoder, call: Call, maxConceal: nat)
    ensures var (d', e) := Step(d, call, maxConceal);
            && d'.ssrc == d.ssrc
            && if e.Emitted? then d'.lastSeq == e.packet.sequence && d'.lastTs == e.packet.timestamp
               else d'.lastSeq == d.lastSeq && d'.lastTs == d.lastTs
  {
  }

  lemma {:induction false} RememberedStill(d: Decoder, d': Decoder, events: seq<Event>, n: nat)
    requires n <= |events| && Remembers(d, events, n) && d'.lastSeq == d.lastSeq && d'.lastTs == d.lastTs
    ensures Remembers(d', events, n)
    decreases n
  {
    if n > 0 && !events[n - 1].Emitted? {
      RememberedStill(d, d', events, n - 1);
    }
  }

  lemma {:induction false} RemembersLast(d: Decoder, events: seq<Event>, i: nat, k: nat)
    requires i < k <= |events| && Remembers(d, events, k) && events[i].Emitted?
    requires forall m | i < m < k :: !events[m].Emitted?
    ensures d.lastSeq == events[i].packet.sequence && d.lastTs == events[i].packet.timestamp
    decreases k
  {
    if i < k - 1 {
      RemembersLast(d, events, i, k - 1);
    }
  }

  /** Over every run: a synthetic packet follows the packet emitted last by one number and by 960 samples. */
  lemma FakeFollows(ssrc: nat, calls: seq<Call>, maxConceal: nat, i: nat, k: nat)
    requires i < k < |calls| && EventAt(ssrc, calls, maxConceal, i).Emitted?
    requires var e := EventAt(ssrc, calls, maxConceal, k); e.Emitted? && !e.packet.genuine
    requires forall m | i < m < k :: !EventAt(ssrc, calls, maxConceal, m).Emitted?
    ensures var last, p := EventAt(ssrc, calls, maxConceal, i).packet, EventAt(ssrc, calls, maxConceal, k).packet;
            && p.ssrc == ssrc && p.payload == [] && !p.needsInner
            && p.sequence == (last.sequence + 1) % 65536
            && p.timestamp == (last.timestamp + 960) % 0x1_0000_0000
  {
    hide PacketDecoding.Run;
    var d := At(ssrc, calls, maxConceal, k);
    var events := PacketDecoding.Run(ssrc, calls, maxConceal).1;
    RunRemembers(ssrc, calls, maxConceal, k);
    forall m | i < m < k
      ensures !events[m].Emitted?
    {
      assert !EventAt(ssrc, calls, maxConceal, m).Emitted?;
    }
    RemembersLast(d, events, i, k);
    StepAt(ssrc, calls, maxConceal, k);
    FakeIs(d, maxConceal, calls[k]);
  }

  lemma FakeIs(d: Decoder, maxConceal: nat, call: Call)
    requires var e := Step(d, call, maxConceal).1; e.Emitted? && !e.packet.genuine
    ensures Step(d, call, maxConceal).1.packet == Fake(d)
  {
    hide Heapq.Pop, Choose;
  }
}
