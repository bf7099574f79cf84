/** One speaker's decoder (opus.py): what it emits, and where it conceals losses. */
module PacketDecoding {
  import opened Bytes
  import opened Modular
  import opened Options
  import opened Heapq
  import opened JitterBuffer
  import DavePayload

  /** `Decoder.SAMPLES_PER_FRAME` of the host library: 20 ms at 48 kHz. */
  const SAMPLES_PER_FRAME: int := 960
  const TIMESTAMP_WRAP: int := 0x1_0000_0000

  /** `_last_seq` and `_last_ts` describe the last packet emitted, or are -1. */
  datatype Decoder = Decoder(ssrc: nat, jitter: Jitter, lastSeq: int, lastTs: int)

  function FreshDecoder(ssrc: nat): Decoder {
    Decoder(ssrc, Fresh(DEFAULT), -1, -1)
  }

  /** What is done with the audio of an emitted packet (`_decode_packet`). */
  datatype Choice =
    | NotDecoded                 // the sink wants opus
    | InnerSkipped | WrappedSkipped
    | Decode(payload: Bytes)
    | FecSkipped | Fec(next: Packet)
    | Plc

  /** What one call did. `full` marks a pop from a buffer at its capacity. */
  datatype Event =
    | Received(packet: Packet, accepted: bool)
    | Emitted(packet: Packet, full: bool, choice: Choice)
    | Skipped                    // resynchronised
    | Quiet

  predicate LooksLikeDave(payload: Bytes) {
    |payload| > 10 && EndsWithMarker(payload) && DavePayload.Parse(payload).Some?
  }

  function Choose(j: Jitter, wantsOpus: bool, packet: Packet): Choice {
    if wantsOpus then NotDecoded
    else if packet.genuine then
      if packet.needsInner then InnerSkipped
      else if LooksLikeDave(packet.payload) then WrappedSkipped
      else Decode(packet.payload)
    else match PeekedNext(j)
      case Some(next) => if next.needsInner || LooksLikeDave(next.payload) then FecSkipped else Fec(next)
      case None => Plc
  }

  /** `_make_fakepacket`. */
  function Fake(d: Decoder): Packet {
    Packet(d.ssrc, AddWrapped(d.lastSeq, 1), AddWrapped(d.lastTs, SAMPLES_PER_FRAME, TIMESTAMP_WRAP), false, false, [])
  }

  /** `_get_next_packet`: buffer afterwards, packet if any, and whether the cursor jumped. */
  function Next(d: Decoder, maxConceal: nat): (Jitter, Option<Packet>, bool) {
    var (j, packet) := Popped(DEFAULT, d.jitter);
    match packet
    case Some(p) => (j, Some(if p.genuine then p else Fake(d)), false)
    case None =>
      if j.buf == [] then (j, None, false) else
        var gap := Gap(j);
        if gap > maxConceal then (JitterBuffer.Resynced(DEFAULT, j), None, true)
        else if gap > 0 then (Advanced(DEFAULT, j), Some(Fake(d)), false)
        else (j, None, false)
  }

  /** `pop_data`. */
  function PopData(d: Decoder, maxConceal: nat, wantsOpus: bool): (Decoder, Event) {
    var (j, packet, jumped) := Next(d, maxConceal);
    match packet
    case None => (d.(jitter := j), if jumped then Skipped else Quiet)
    case Some(p) =>
      (Decoder(d.ssrc, j, p.sequence, p.timestamp),
       Emitted(p, |d.jitter.buf| >= DEFAULT.maxsize && |j.buf| < |d.jitter.buf|, Choose(j, wantsOpus, p)))
  }

  /** `push_packet`. */
  function PushPacket(d: Decoder, p: Packet): (Decoder, Event) {
    var (j, accepted) := Pushed(DEFAULT, d.jitter, p);
    (d.(jitter := j), Received(p, accepted))
  }

  datatype Call = PushCall(packet: Packet) | PopCall(wantsOpus: bool)

  function Step(d: Decoder, call: Call, maxConceal: nat): (Decoder, Event) {
    match call
    case PushCall(p) => PushPacket(d, p)
    case PopCall(opus) => PopData(d, maxConceal, opus)
  }

  /** The decoder after `calls`, and the events so far. */
  function Run(ssrc: nat, calls: seq<Call>, maxConceal: nat): (r: (Decoder, seq<Event>))
    ensures |r.1| == |calls|
  {
    if calls == [] then (FreshDecoder(ssrc), []) else
      var (d, events) := Run(ssrc, calls[..|calls| - 1], maxConceal);
      var (d', e) := Step(d, calls[|calls| - 1], maxConceal);
      (d', events + [e])
  }

  // ----- What can be read off the events -----

  /** Sequence number emitted last, or -1. */
  function LastEmitted(events: seq<Event>): int {
    if events == [] then -1
    else match events[|events| - 1]
      case Emitted(p, _, _) => p.sequence
      case _ => LastEmitted(events[..|events| - 1])
  }

  /** Whether the cursor jumped after the last emission. */
  predicate SkippedSince(events: seq<Event>) {
    events != [] && match events[|events| - 1]
      case Emitted(_, _, _) => false
      case Skipped => true
      case _ => SkippedSince(events[..|events| - 1])
  }

  /** Synthetic packets emitted since the last genuine one. */
  function Streak(events: seq<Event>): nat {
    if events == [] then 0
    else match events[|events| - 1]
      case Emitted(p, _, _) => if p.genuine then 0 else 1 + Streak(events[..|events| - 1])
      case _ => Streak(events[..|events| - 1])
  }

  // ----- The hypothesis on the packets of one speaker -----

  ghost predicate InOrder(a: Packet, b: Packet) {
    || (a.sequence < b.sequence && a.timestamp < b.timestamp)
    || (b.sequence < a.sequence && b.timestamp < a.timestamp)
  }

  /** Genuine packets with distinct numbers in one interval without rollover, narrower than
      55535, and with timestamps that follow the numbers. */
  ghost predicate Regular(calls: seq<Call>, lo: nat, hi: nat) {
    && lo <= hi < 65536 && hi - lo < 55535
    && (forall i | 0 <= i < |calls| && calls[i].PushCall? ::
          lo <= calls[i].packet.sequence <= hi && calls[i].packet.genuine)
    && (forall i, k | 0 <= i < k < |calls| && calls[i].PushCall? && calls[k].PushCall? ::
          InOrder(calls[i].packet, calls[k].packet))
  }

  /** The packets pushed by `calls`. */
  ghost function PushedBy(calls: seq<Call>): set<Packet> {
    set i | 0 <= i < |calls| && calls[i].PushCall? :: calls[i].packet
  }

  predicate Eligible(q: Packet, cursor: int, lo: nat, hi: nat) {
    q.genuine && lo <= q.sequence <= hi && cursor < q.sequence
  }

  /** The heap holds the sorted list `list`, which lies ahead of the cursor. */
  ghost predicate Ahead(j: Jitter, list: seq<Packet>, all: set<Packet>, lo: nat, hi: nat) {
    && Holds(j.buf, list, all) && Sound(DEFAULT, j)
    && (forall q | q in list :: Eligible(q, j.cursor, lo, hi))
    && (j.prefill == 0 || (j.prefill == 1 && list == [] && j.cursor == -1))
    && (j.cursor >= 0 ==> lo <= j.cursor <= hi)
  }

  /** The head is next, or the buffer is full: the next pop hands the head out. */
  ghost predicate HeadDue(j: Jitter, list: seq<Packet>) {
    list != [] && (list[0].sequence == j.cursor + 1 || |list| >= DEFAULT.maxsize)
  }

  /** The decoder has emitted up to the cursor, unless a jump is still outstanding. */
  ghost predicate Caught(d: Decoder, events: seq<Event>, list: seq<Packet>) {
    && LastEmitted(events) == d.lastSeq
    && (d.jitter.cursor == -1 <==> d.lastSeq == -1) && -1 <= d.lastSeq <= d.jitter.cursor
    && (d.lastSeq < d.jitter.cursor ==> SkippedSince(events) && HeadDue(d.jitter, list))
  }

  /** Packets concealed and packets left to conceal fit the bound, unless a forced pop is due. */
  ghost predicate Bounded(j: Jitter, events: seq<Event>, list: seq<Packet>, maxConceal: nat) {
    && Streak(events) <= maxConceal
    && (Streak(events) > 0 ==>
          list != [] && j.cursor >= 0 &&
          (Streak(events) + (list[0].sequence - j.cursor - 1) <= maxConceal || |list| >= DEFAULT.maxsize))
  }

  ghost predicate Inv(d: Decoder, events: seq<Event>, list: seq<Packet>, all: set<Packet>,
                      lo: nat, hi: nat, maxConceal: nat) {
    && Ahead(d.jitter, list, all, lo, hi)
    && Caught(d, events, list)
    && Bounded(d.jitter, events, list, maxConceal)
  }

  /** What one event promises, given the events before it. */
  ghost predicate WellPlaced(before: seq<Event>, e: Event, maxConceal: nat) {
    e.Emitted? ==>
      && e.packet.sequence > LastEmitted(before)
      && (LastEmitted(before) == -1 || e.packet.sequence == LastEmitted(before) + 1 || e.full || SkippedSince(before))
      && (!e.packet.genuine ==> Streak(before) < maxConceal)
  }

  // ----- One call keeps the invariant -----

  /** A packet that is not too old lies ahead of the cursor. */
  lemma AcceptedIsAhead(j: Jitter, p: Packet, lo: nat, hi: nat)
    requires hi - lo < WRAP - 1 - THRESHOLD && lo <= p.sequence <= hi
    requires j.cursor >= 0 ==> lo <= j.cursor <= hi
    requires !TooOld(j, p)
    ensures j.cursor < p.sequence
  {
    if j.cursor >= 0 {
      GapPlain(j.cursor, p.sequence);
    }
  }

  /** What the sorted list becomes. */
  function ListAfterPush(list: seq<Packet>, p: Packet): seq<Packet> {
    var more := Inserted(list, p);
    if |list| == DEFAULT.maxsize then more[1..] else more
  }

  /** Inserting lowers the head or keeps it; only an overflow, which leaves the buffer full, can raise it. */
  lemma HeadAfterPush(list: seq<Packet>, p: Packet)
    ensures var more := ListAfterPush(list, p);
            list != [] ==> more != [] && (more[0].sequence <= list[0].sequence || |more| == DEFAULT.maxsize)
    ensures |ListAfterPush(list, p)| >= |list|
    ensures |list| < DEFAULT.maxsize ==> |ListAfterPush(list, p)| == |list| + 1
  {
  }

  lemma PushAhead(j: Jitter, list: seq<Packet>, all: set<Packet>, lo: nat, hi: nat, p: Packet)
    requires Ahead(j, list, all, lo, hi)
    requires hi < WRAP && hi - lo < WRAP - 1 - THRESHOLD
    requires p in all && p.genuine && lo <= p.sequence <= hi && !TooOld(j, p)
    requires forall i | 0 <= i < |list| :: list[i].sequence != p.sequence
    ensures Ahead(Pushed(DEFAULT, j, p).0, ListAfterPush(list, p), all, lo, hi)
    ensures forall q | q in ListAfterPush(list, p) :: q == p || q in list
    ensures j.cursor < p.sequence && j.buf != [] ==> j.prefill == 0
  {
    hide Heapq.Push, Holds, Sound, Cleaned;
    OpKeepsSound(DEFAULT, j, Push(p));
    AcceptedIsAhead(j, p, lo, hi);
    HeadOf(j.buf, list, all);
    InsertedSorts(list, p);
    LengthOf(j, list, all);
    PushIsBoundedInsert(DEFAULT, j.buf, list, p, all);
    var more := ListAfterPush(list, p);
    forall q | q in more
      ensures q == p || q in list
    {
      assert q in Inserted(list, p);
    }
  }

  lemma PushStep(d: Decoder, events: seq<Event>, list: seq<Packet>, all: set<Packet>,
                 lo: nat, hi: nat, maxConceal: nat, p: Packet) returns (list': seq<Packet>)
    requires Inv(d, events, list, all, lo, hi, maxConceal)
    requires hi < WRAP && hi - lo < WRAP - 1 - THRESHOLD
    requires p in all && p.genuine && lo <= p.sequence <= hi
    requires forall i | 0 <= i < |list| :: list[i].sequence != p.sequence
    ensures forall q | q in list' :: q == p || q in list
    ensures var (d', e) := PushPacket(d, p);
            Inv(d', events + [e], list', all, lo, hi, maxConceal)
  {
    hide Heapq.Push, Cleaned, ListAfterPush;
    var j := d.jitter;
    var (d', e) := PushPacket(d, p);
    assert (events + [e])[..|events|] == events;
    if TooOld(j, p) {
      list' := list;
    } else {
      PushAhead(j, list, all, lo, hi, p);
      HeadAfterPush(list, p);
      list' := ListAfterPush(list, p);
      HeadStaysDue(j, list, list', all, lo, hi, Pushed(DEFAULT, j, p).0);
      hide Ahead;
    }
  }

  /** With the cursor unmoved and the new list still ahead of it, a head that was due stays due. */
  lemma HeadStaysDue(j: Jitter, list: seq<Packet>, list': seq<Packet>, all: set<Packet>, lo: nat, hi: nat, j': Jitter)
    requires Ahead(j', list', all, lo, hi) && j'.cursor == j.cursor
    requires list != [] ==> list' != [] && (list'[0].sequence <= list[0].sequence || |list'| == DEFAULT.maxsize)
    requires |list'| >= |list|
    ensures HeadDue(j, list) ==> HeadDue(j', list')
  {
    assert list' != [] ==> Eligible(list'[0], j'.cursor, lo, hi);
  }

  lemma LengthOf(j: Jitter, list: seq<Packet>, all: set<Packet>)
    requires Holds(j.buf, list, all) && Sound(DEFAULT, j)
    ensures |list| == |j.buf| <= DEFAULT.maxsize
  {
    SameLength(j.buf, list, all);
  }

  /** The buffer hands out its head. */
  lemma PopGenuine(d: Decoder, events: seq<Event>, list: seq<Packet>, all: set<Packet>,
                   lo: nat, hi: nat, maxConceal: nat, wantsOpus: bool)
    requires Inv(d, events, list, all, lo, hi, maxConceal) && hi < WRAP
    requires d.jitter.hasItem
    ensures list != []
    ensures var (d', e) := PopData(d, maxConceal, wantsOpus);
            && Inv(d', events + [e], list[1..], all, lo, hi, maxConceal)
            && WellPlaced(events, e, maxConceal)
  {
    hide Heapq.Pop, Choose, Holds;
    var j := d.jitter;
    var e := PopData(d, maxConceal, wantsOpus).1;
    assert (events + [e])[..|events|] == events;
    SameLength(j.buf, list, all);
    HeadOf(j.buf, list, all);
    assert Eligible(list[0], j.cursor, lo, hi);
    PopHolds(j.buf, list, all);
    SortedTail(list);
    OpKeepsSound(DEFAULT, j, Pop);
  }

  lemma HeadOf(buf: seq<Packet>, list: seq<Packet>, all: set<Packet>)
    requires Holds(buf, list, all)
    ensures buf != [] ==> list != [] && buf[0] == list[0]
    ensures Sorted(list)
  {
    if buf != [] {
      RootIsHead(buf, list, all);
    }
  }

  lemma SortedTail(list: seq<Packet>)
    requires Sorted(list) && list != []
    ensures forall q | q in list[1..] :: q in list && list[0].sequence < q.sequence
  {
  }

  /** Without a rollover in reach, the gap before the head is a plain difference. */
  lemma GapBefore(d: Decoder, events: seq<Event>, list: seq<Packet>, all: set<Packet>,
                  lo: nat, hi: nat, maxConceal: nat)
    requires Inv(d, events, list, all, lo, hi, maxConceal) && hi < WRAP
    ensures d.jitter.buf == [] <==> list == []
    ensures list != [] ==> d.jitter.buf[0] == list[0]
    ensures Gap(d.jitter) == if list != [] && d.jitter.cursor >= 0 then list[0].sequence - d.jitter.cursor - 1 else 0
  {
    SameLength(d.jitter.buf, list, all);
    HeadOf(d.jitter.buf, list, all);
    if list != [] && d.jitter.cursor >= 0 {
      assert Eligible(list[0], d.jitter.cursor, lo, hi);
      GapPlain(d.jitter.cursor, list[0].sequence);
    }
  }

  /** The decoder has nothing to hand out, so the head is not next and the buffer is not full. */
  ghost predicate Waiting(d: Decoder, list: seq<Packet>) {
    && !d.jitter.hasItem
    && (list == [] || d.jitter.buf != [])
    && (list != [] ==> d.jitter.buf[0] == list[0] && d.jitter.prefill == 0)
    && (|list| >= DEFAULT.maxsize ==> list[0].sequence <= d.jitter.cursor)
    && Gap(d.jitter) == (if list != [] && d.jitter.cursor >= 0 then list[0].sequence - d.jitter.cursor - 1 else 0)
  }

  lemma NothingReady(d: Decoder, events: seq<Event>, list: seq<Packet>, all: set<Packet>,
                     lo: nat, hi: nat, maxConceal: nat)
    requires Inv(d, events, list, all, lo, hi, maxConceal) && hi < WRAP
    requires !d.jitter.hasItem
    ensures Waiting(d, list) && |list| < DEFAULT.maxsize
    ensures |d.jitter.buf| == |list|
  {
    SameLength(d.jitter.buf, list, all);
    GapBefore(d, events, list, all, lo, hi, maxConceal);
  }

  /** Conceal one packet. */
  lemma PopFake(d: Decoder, events: seq<Event>, list: seq<Packet>, all: set<Packet>,
                lo: nat, hi: nat, maxConceal: nat, wantsOpus: bool)
    requires Inv(d, events, list, all, lo, hi, maxConceal) && hi < WRAP
    requires !d.jitter.hasItem && 0 < Gap(d.jitter) <= maxConceal
    ensures var (d', e) := PopData(d, maxConceal, wantsOpus);
            && Inv(d', events + [e], list, all, lo, hi, maxConceal)
            && WellPlaced(events, e, maxConceal)
  {
    hide Holds, LooksLikeDave;
    var j := d.jitter;
    NothingReady(d, events, list, all, lo, hi, maxConceal);
    OpKeepsSound(DEFAULT, j, Advance(1));
    var (d', e) := PopData(d, maxConceal, wantsOpus);
    assert (events + [e])[..|events|] == events;
    assert d.lastSeq == j.cursor;
    assert Eligible(list[0], j.cursor, lo, hi);
    SortedAhead(list, all, j.buf);
    assert e.Emitted? && !e.packet.genuine && e.packet.sequence == j.cursor + 1 == d'.jitter.cursor;
  }

  /** Jump to just before the head. */
  lemma PopSkip(d: Decoder, events: seq<Event>, list: seq<Packet>, all: set<Packet>,
                lo: nat, hi: nat, maxConceal: nat, wantsOpus: bool)
    requires Inv(d, events, list, all, lo, hi, maxConceal) && hi < WRAP
    requires !d.jitter.hasItem && Gap(d.jitter) > maxConceal
    ensures var (d', e) := PopData(d, maxConceal, wantsOpus);
            && Inv(d', events + [e], list, all, lo, hi, maxConceal)
            && WellPlaced(events, e, maxConceal)
  {
    hide Holds, LooksLikeDave, PopData, Sound, LastEmitted, SkippedSince, Streak, JitterBuffer.Resynced;
    var j := d.jitter;
    NothingReady(d, events, list, all, lo, hi, maxConceal);
    OpKeepsSound(DEFAULT, j, Resync);
    assert Eligible(list[0], j.cursor, lo, hi);
    SkipEffect(d, maxConceal, wantsOpus);
    SkipEvents(events);
    HeadOf(j.buf, list, all);
    ResyncEffect(j);
    SortedAhead(list, all, j.buf);
  }

  lemma SkipEffect(d: Decoder, maxConceal: nat, wantsOpus: bool)
    requires !d.jitter.hasItem && Gap(d.jitter) > maxConceal && d.jitter.buf != []
    ensures PopData(d, maxConceal, wantsOpus) == (d.(jitter := JitterBuffer.Resynced(DEFAULT, d.jitter)), Skipped)
  {
  }

  lemma SkipEvents(events: seq<Event>)
    ensures var now := events + [Skipped];
            SkippedSince(now) && LastEmitted(now) == LastEmitted(events) && Streak(now) == Streak(events)
  {
    assert (events + [Skipped])[..|events|] == events;
  }

  lemma ResyncEffect(j: Jitter)
    requires j.buf != []
    ensures var r := JitterBuffer.Resynced(DEFAULT, j);
            r.buf == j.buf && r.prefill == j.prefill && r.cursor == AddWrapped(j.buf[0].sequence, -1)
  {
  }

  lemma SortedAhead(list: seq<Packet>, all: set<Packet>, buf: seq<Packet>)
    requires Holds(buf, list, all)
    ensures forall q | q in list :: list[0].sequence <= q.sequence
  {
  }

  /** Nothing to do yet. */
  lemma PopQuiet(d: Decoder, events: seq<Event>, list: seq<Packet>, all: set<Packet>,
                 lo: nat, hi: nat, maxConceal: nat, wantsOpus: bool)
    requires Inv(d, events, list, all, lo, hi, maxConceal) && hi < WRAP
    requires !d.jitter.hasItem && Gap(d.jitter) == 0
    ensures var (d', e) := PopData(d, maxConceal, wantsOpus);
            && d' == d && Inv(d, events + [e], list, all, lo, hi, maxConceal)
            && WellPlaced(events, e, maxConceal)
  {
    hide Holds, LooksLikeDave;
    var e := PopData(d, maxConceal, wantsOpus).1;
    assert (events + [e])[..|events|] == events;
  }

  lemma PopStep(d: Decoder, events: seq<Event>, list: seq<Packet>, all: set<Packet>,
                lo: nat, hi: nat, maxConceal: nat, wantsOpus: bool) returns (list': seq<Packet>)
    requires Inv(d, events, list, all, lo, hi, maxConceal) && hi < WRAP
    ensures forall q | q in list' :: q in list
    ensures var (d', e) := PopData(d, maxConceal, wantsOpus);
            && Inv(d', events + [e], list', all, lo, hi, maxConceal)
            && WellPlaced(events, e, maxConceal)
  {
    hide Inv, PopData, WellPlaced;
    list' := list;
    if d.jitter.hasItem {
      PopGenuine(d, events, list, all, lo, hi, maxConceal, wantsOpus);
      list' := list[1..];
    } else if Gap(d.jitter) == 0 {
      PopQuiet(d, events, list, all, lo, hi, maxConceal, wantsOpus);
    } else if Gap(d.jitter) > maxConceal {
      PopSkip(d, events, list, all, lo, hi, maxConceal, wantsOpus);
    } else {
      PopFake(d, events, list, all, lo, hi, maxConceal, wantsOpus);
    }
  }

  // ----- Whole runs -----

  lemma RegularPrefix(calls: seq<Call>, lo: nat, hi: nat)
    requires Regular(calls, lo, hi) && calls != []
    ensures Regular(calls[..|calls| - 1], lo, hi)
  {
  }

  lemma PushedByIsCoherent(calls: seq<Call>, lo: nat, hi: nat)
    requires Regular(calls, lo, hi)
    ensures Coherent(PushedBy(calls))
  {
    forall a, b | a in PushedBy(calls) && b in PushedBy(calls) && a.sequence < b.sequence
      ensures a.timestamp < b.timestamp
    {
      var i :| 0 <= i < |calls| && calls[i].PushCall? && calls[i].packet == a;
      var k :| 0 <= k < |calls| && calls[k].PushCall? && calls[k].packet == b;
    }
  }

  /** A larger collection of coherent packets holds the same heap. */
  lemma HoldsMore(d: Decoder, events: seq<Event>, list: seq<Packet>, all: set<Packet>, more: set<Packet>,
                  lo: nat, hi: nat, maxConceal: nat)
    requires Inv(d, events, list, all, lo, hi, maxConceal)
    requires all <= more && Coherent(more)
    ensures Inv(d, events, list, more, lo, hi, maxConceal)
  {
  }

  lemma HeldWereGiven(j: Jitter, list: seq<Packet>, all: set<Packet>)
    requires Holds(j.buf, list, all)
    ensures forall q | q in list :: q in all
  {
    forall q | q in list
      ensures q in all
    {
      assert q in multiset(list) && q in multiset(j.buf) && q in j.buf;
    }
  }

  /** The packet pushed last differs in number from everything held. */
  lemma LastPushIsNew(calls: seq<Call>, lo: nat, hi: nat, list: seq<Packet>)
    requires Regular(calls, lo, hi) && calls != [] && calls[|calls| - 1].PushCall?
    requires forall q | q in list :: q in PushedBy(calls[..|calls| - 1])
    ensures forall i | 0 <= i < |list| :: list[i].sequence != calls[|calls| - 1].packet.sequence
  {
    var n := |calls| - 1;
    forall i | 0 <= i < |list|
      ensures list[i].sequence != calls[n].packet.sequence
    {
      assert list[i] in list;
      assert list[i] in PushedBy(calls[..n]);
      var k :| 0 <= k < n && calls[..n][k].PushCall? && calls[..n][k].packet == list[i];
      assert InOrder(calls[k].packet, calls[n].packet);
    }
  }

  lemma MorePushed(calls: seq<Call>)
    requires calls != []
    ensures PushedBy(calls[..|calls| - 1]) <= PushedBy(calls)
    ensures calls[|calls| - 1].PushCall? ==> calls[|calls| - 1].packet in PushedBy(calls)
  {
    var n := |calls| - 1;
    forall p | p in PushedBy(calls[..n])
      ensures p in PushedBy(calls)
    {
      var k :| 0 <= k < n && calls[..n][k].PushCall? && calls[..n][k].packet == p;
      assert calls[k].packet == p;
    }
  }

  lemma NothingPushed(ssrc: nat, lo: nat, hi: nat, maxConceal: nat)
    ensures Inv(FreshDecoder(ssrc), [], [], {}, lo, hi, maxConceal)
    ensures AllWellPlaced([], maxConceal)
  {
  }

  ghost predicate AllWellPlaced(events: seq<Event>, maxConceal: nat) {
    forall n | 0 <= n < |events| :: WellPlaced(events[..n], events[n], maxConceal)
  }

  lemma OneMoreWellPlaced(events: seq<Event>, e: Event, maxConceal: nat)
    requires AllWellPlaced(events, maxConceal) && WellPlaced(events, e, maxConceal)
    ensures AllWellPlaced(events + [e], maxConceal)
  {
    hide WellPlaced;
    var more := events + [e];
    forall n | 0 <= n < |more|
      ensures WellPlaced(more[..n], more[n], maxConceal)
    {
      assert more[..n] == events[..n];
      assert events[..|events|] == events;
    }
  }

  /** The last call of a run. */
  lemma LastCall(ssrc: nat, calls: seq<Call>, before: seq<Packet>, lo: nat, hi: nat, maxConceal: nat)
    returns (list: seq<Packet>)
    requires Regular(calls, lo, hi) && calls != []
    requires var (d, events) := Run(ssrc, calls[..|calls| - 1], maxConceal);
             && Inv(d, events, before, PushedBy(calls[..|calls| - 1]), lo, hi, maxConceal)
             && AllWellPlaced(events, maxConceal)
    ensures var (d, events) := Run(ssrc, calls, maxConceal);
            && Inv(d, events, list, PushedBy(calls), lo, hi, maxConceal)
            && AllWellPlaced(events, maxConceal)
  {
    hide PopData, PushPacket, Caught, Bounded, AllWellPlaced, Regular, Holds;
    var n := |calls| - 1;
    var (d, events) := Run(ssrc, calls[..n], maxConceal);
    var all := PushedBy(calls);
    HeldWereGiven(d.jitter, before, PushedBy(calls[..n]));
    MorePushed(calls);
    PushedByIsCoherent(calls, lo, hi);
    HoldsMore(d, events, before, PushedBy(calls[..n]), all, lo, hi, maxConceal);
    IntervalFacts(calls, lo, hi);
    var e := Step(d, calls[n], maxConceal).1;
    match calls[n]
    case PushCall(p) =>
      LastPushIsNew(calls, lo, hi, before);
      list := PushStep(d, events, before, all, lo, hi, maxConceal, p);
      ReceivedIsWellPlaced(d, events, p, maxConceal);
      OneMoreWellPlaced(events, e, maxConceal);
    case PopCall(opus) =>
      list := PopStep(d, events, before, all, lo, hi, maxConceal, opus);
      OneMoreWellPlaced(events, e, maxConceal);
  }

  lemma IntervalFacts(calls: seq<Call>, lo: nat, hi: nat)
    requires Regular(calls, lo, hi)
    ensures hi < WRAP && hi - lo < WRAP - 1 - THRESHOLD
    ensures forall i | 0 <= i < |calls| && calls[i].PushCall? ::
              lo <= calls[i].packet.sequence <= hi && calls[i].packet.genuine
  {
  }

  lemma ReceivedIsWellPlaced(d: Decoder, events: seq<Event>, p: Packet, maxConceal: nat)
    ensures WellPlaced(events, PushPacket(d, p).1, maxConceal)
  {
  }

  /** Every run keeps the invariant, for some sorted list that the heap holds. */
  lemma {:induction false} RunKeepsInv(ssrc: nat, calls: seq<Call>, lo: nat, hi: nat, maxConceal: nat)
    returns (list: seq<Packet>)
    requires Regular(calls, lo, hi)
    ensures var (d, events) := Run(ssrc, calls, maxConceal);
            && Inv(d, events, list, PushedBy(calls), lo, hi, maxConceal)
            && AllWellPlaced(events, maxConceal)
    decreases |calls|
  {
    hide Inv, AllWellPlaced, Step;
    if calls == [] {
      list := [];
      assert PushedBy(calls) == {};
      NothingPushed(ssrc, lo, hi, maxConceal);
    } else {
      var n := |calls| - 1;
      RegularPrefix(calls, lo, hi);
      var before := RunKeepsInv(ssrc, calls[..n], lo, hi, maxConceal);
      list := LastCall(ssrc, calls, before, lo, hi, maxConceal);
    }
  }

  // ----- What a listener hears: packets pushed and popped in any order -----

  lemma {:induction false} LastEmittedBounds(events: seq<Event>, i: nat, maxConceal: nat)
    requires AllWellPlaced(events, maxConceal) && i < |events| && events[i].Emitted?
    ensures events[i].packet.sequence <= LastEmitted(events)
    decreases |events|
  {
    var n := |events| - 1;
    if i < n {
      var init := events[..n];
      forall m | 0 <= m < n
        ensures WellPlaced(init[..m], init[m], maxConceal)
      {
        assert init[..m] == events[..m];
      }
      LastEmittedBounds(init, i, maxConceal);
      assert WellPlaced(events[..n], events[n], maxConceal);
    }
  }

  lemma AllWellPlacedPrefix(events: seq<Event>, k: nat, maxConceal: nat)
    requires AllWellPlaced(events, maxConceal) && k <= |events|
    ensures AllWellPlaced(events[..k], maxConceal)
  {
    forall m | 0 <= m < k
      ensures WellPlaced(events[..k][..m], events[..k][m], maxConceal)
    {
      assert events[..k][..m] == events[..m];
    }
  }

  /** Sequence numbers, genuine and synthetic, are emitted in strictly increasing order. */
  lemma EmissionsIncrease(ssrc: nat, calls: seq<Call>, lo: nat, hi: nat, maxConceal: nat, i: nat, k: nat)
    requires Regular(calls, lo, hi)
    requires var events := Run(ssrc, calls, maxConceal).1;
             i < k < |events| && events[i].Emitted? && events[k].Emitted?
    ensures var events := Run(ssrc, calls, maxConceal).1;
            events[i].packet.sequence < events[k].packet.sequence
  {
    hide Regular, Inv, WellPlaced;
    var list := RunKeepsInv(ssrc, calls, lo, hi, maxConceal);
    var events := Run(ssrc, calls, maxConceal).1;
    AllWellPlacedPrefix(events, k, maxConceal);
    LastEmittedBounds(events[..k], i, maxConceal);
    PlacedAfter(events, k, maxConceal);
  }

  lemma PlacedAfter(events: seq<Event>, k: nat, maxConceal: nat)
    requires AllWellPlaced(events, maxConceal) && k < |events| && events[k].Emitted?
    ensures events[k].packet.sequence > LastEmitted(events[..k])
  {
    assert WellPlaced(events[..k], events[k], maxConceal);
  }

  lemma {:induction false} NothingSince(events: seq<Event>, i: nat)
    requires i < |events| && events[i].Emitted?
    requires forall m | i < m < |events| :: !events[m].Emitted?
    ensures LastEmitted(events) == events[i].packet.sequence
    ensures SkippedSince(events) ==> exists m :: i < m < |events| && events[m].Skipped?
    decreases |events|
  {
    var n := |events| - 1;
    if i < n {
      NothingSince(events[..n], i);
      if SkippedSince(events) && !events[n].Skipped? {
        var m :| i < m < n && events[..n][m].Skipped?;
        assert events[m].Skipped?;
      }
    }
  }

  /** Each number emitted is the previous one plus one, unless the cursor jumped in between or a full
      buffer forced the pop. */
  lemma EmissionsAreConsecutive(ssrc: nat, calls: seq<Call>, lo: nat, hi: nat, maxConceal: nat, i: nat, k: nat)
    requires Regular(calls, lo, hi)
    requires var events := Run(ssrc, calls, maxConceal).1;
             && i < k < |events| && events[i].Emitted? && events[k].Emitted?
             && forall m | i < m < k :: !events[m].Emitted?
    ensures var events := Run(ssrc, calls, maxConceal).1;
            || events[k].packet.sequence == events[i].packet.sequence + 1
            || events[k].full
            || exists m :: i < m < k && events[m].Skipped?
  {
    hide Regular, Inv;
    var list := RunKeepsInv(ssrc, calls, lo, hi, maxConceal);
    var events := Run(ssrc, calls, maxConceal).1;
    NothingSince(events[..k], i);
    assert WellPlaced(events[..k], events[k], maxConceal);
    if SkippedSince(events[..k]) {
      var m :| i < m < k && events[..k][m].Skipped?;
      assert events[m].Skipped?;
    }
  }

  /** Never more than `maxConceal` synthetic packets in a row. */
  lemma ConcealmentIsBounded(ssrc: nat, calls: seq<Call>, lo: nat, hi: nat, maxConceal: nat)
    requires Regular(calls, lo, hi)
    ensures Streak(Run(ssrc, calls, maxConceal).1) <= maxConceal
  {
    hide Regular;
    var list := RunKeepsInv(ssrc, calls, lo, hi, maxConceal);
  }

  /** A synthetic packet is concealed with the packet numbered one above it, if that one is held. */
  lemma FakeChoice(d: Decoder, events: seq<Event>, list: seq<Packet>, all: set<Packet>,
                   lo: nat, hi: nat, maxConceal: nat)
    requires Inv(d, events, list, all, lo, hi, maxConceal) && hi < WRAP
    requires !d.jitter.hasItem && 0 < Gap(d.jitter) <= maxConceal
    ensures var e := PopData(d, maxConceal, false).1;
            && e.Emitted? && !e.packet.genuine
            && (e.choice.Plc? <==> forall q | q in d.jitter.buf :: q.sequence != AddWrapped(e.packet.sequence, 1))
            && (e.choice.Fec? ==> e.choice.next in d.jitter.buf
                                  && e.choice.next.sequence == AddWrapped(e.packet.sequence, 1))
  {
    hide LooksLikeDave;
    var j := d.jitter;
    NothingReady(d, events, list, all, lo, hi, maxConceal);
    assert d.lastSeq == j.cursor;
    assert j.buf[0] == list[0] && j.buf[0] in j.buf;
    assert Eligible(list[0], j.cursor, lo, hi);
    var e := PopData(d, maxConceal, false).1;
    assert e.packet.sequence == j.cursor + 1 < list[0].sequence;
    forall q | q in j.buf
      ensures list[0].sequence <= q.sequence
    {
      assert q in multiset(j.buf) && q in multiset(list) && q in list;
      SortedAhead(list, all, j.buf);
    }
  }

  /** Only an empty-handed pop makes a synthetic packet. */
  lemma FakeMeansConcealing(d: Decoder, events: seq<Event>, list: seq<Packet>, all: set<Packet>,
                            lo: nat, hi: nat, maxConceal: nat, wantsOpus: bool)
    requires Inv(d, events, list, all, lo, hi, maxConceal) && hi < WRAP
    requires var e := PopData(d, maxConceal, wantsOpus).1; e.Emitted? && !e.packet.genuine
    ensures !d.jitter.hasItem && 0 < Gap(d.jitter) <= maxConceal
  {
    hide LooksLikeDave, Heapq.Pop;
    SameLength(d.jitter.buf, list, all);
    HeadOf(d.jitter.buf, list, all);
    assert list != [] ==> Eligible(list[0], d.jitter.cursor, lo, hi);
  }

  lemma {:induction false} RunPrefix(ssrc: nat, calls: seq<Call>, maxConceal: nat, k: nat)
    requires k < |calls|
    ensures Run(ssrc, calls, maxConceal).1[k] == Step(Run(ssrc, calls[..k], maxConceal).0, calls[k], maxConceal).1
    decreases |calls|
  {
    hide Step;
    var n := |calls| - 1;
    if k < n {
      RunPrefix(ssrc, calls[..n], maxConceal, k);
      assert calls[..n][..k] == calls[..k];
    }
  }

  lemma {:induction false} RegularUpTo(calls: seq<Call>, lo: nat, hi: nat, k: nat)
    requires Regular(calls, lo, hi) && k <= |calls|
    ensures Regular(calls[..k], lo, hi)
  {
  }

  /** When a decoding sink gets a synthetic packet numbered `s`, error correction data comes from the held
      packet numbered `s + 1`; plain concealment is used exactly when no such packet is held. */
  lemma FecIsAligned(ssrc: nat, calls: seq<Call>, lo: nat, hi: nat, maxConceal: nat, k: nat)
    requires Regular(calls, lo, hi) && k < |calls| && calls[k] == PopCall(false)
    requires var e := Run(ssrc, calls, maxConceal).1[k]; e.Emitted? && !e.packet.genuine
    ensures var e := Run(ssrc, calls, maxConceal).1[k];
            var buf := Run(ssrc, calls[..k], maxConceal).0.jitter.buf;
            && (e.choice.Fec? || e.choice.FecSkipped? || e.choice.Plc?)
            && (e.choice.Plc? <==> forall q | q in buf :: q.sequence != AddWrapped(e.packet.sequence, 1))
            && (e.choice.Fec? ==> e.choice.next in buf
                                  && e.choice.next.sequence == AddWrapped(e.packet.sequence, 1))
  {
    hide Inv, Run, PopData, Regular;
    IntervalFacts(calls, lo, hi);
    RegularUpTo(calls, lo, hi, k);
    var list := RunKeepsInv(ssrc, calls[..k], lo, hi, maxConceal);
    var (d, events) := Run(ssrc, calls[..k], maxConceal);
    RunPrefix(ssrc, calls, maxConceal, k);
    FakeMeansConcealing(d, events, list, PushedBy(calls[..k]), lo, hi, maxConceal, false);
    FakeChoice(d, events, list, PushedBy(calls[..k]), lo, hi, maxConceal);
    ChoiceOfFake(d, maxConceal);
  }

  lemma ChoiceOfFake(d: Decoder, maxConceal: nat)
    requires var e := PopData(d, maxConceal, false).1; e.Emitted? && !e.packet.genuine
    ensures var c := PopData(d, maxConceal, false).1.choice; c.Fec? || c.FecSkipped? || c.Plc?
  {
    hide LooksLikeDave, Heapq.Pop;
  }
}
