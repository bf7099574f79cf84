/** The jitter buffer (buffer.py). */
module JitterBuffer {
  import opened Modular
  import opened Options
  import opened Heapq

  const THRESHOLD: nat := 10000

  datatype Config = Config(maxsize: nat, prefsize: nat, prefill: int) {
    /** What the constructor insists on. */
    predicate Valid() {
      maxsize >= 1 && prefsize <= maxsize
    }
  }

  /** The defaults, which `PacketDecoder` uses. */
  const DEFAULT: Config := Config(10, 1, 1)

  /** `_last_tx_seq`: the last number sent on, or -1. */
  type Cursor = x: int | -1 <= x < 0x1_0000

  datatype Jitter = Jitter(buf: seq<Packet>, cursor: Cursor, prefill: int, hasItem: bool)

  function Fresh(cfg: Config): Jitter {
    Jitter([], -1, cfg.prefill, false)
  }

  // ----- The operations as functions -----

  /** `_update_has_item`. */
  function Updated(cfg: Config, j: Jitter): Jitter {
    var prefilled := j.prefill == 0;
    var packetReady := |j.buf| > cfg.prefsize;
    if !prefilled || !packetReady then j.(hasItem := false) else
      var sequential := AddWrapped(j.cursor, 1) == j.buf[0].sequence;
      var positive := j.cursor >= 0;
      j.(hasItem := (sequential && positive) || !positive || |j.buf| >= cfg.maxsize)
  }

  /** `_cleanup`. */
  function Cleaned(cfg: Config, buf: seq<Packet>): seq<Packet>
    decreases |buf|
  {
    if |buf| > cfg.maxsize then Cleaned(cfg, Heapq.Pop(buf)) else buf
  }

  /** Whether `push` takes a packet for an old one. */
  predicate TooOld(j: Jitter, p: Packet) {
    GapWrapped(j.cursor, p.sequence) > THRESHOLD && j.cursor != -1
  }

  function Pushed(cfg: Config, j: Jitter, p: Packet): (Jitter, bool) {
    if TooOld(j, p) then (j, false) else
      var prefill := if j.prefill > 0 then j.prefill - 1 else j.prefill;
      (Updated(cfg, j.(buf := Cleaned(cfg, Heapq.Push(j.buf, p)), prefill := prefill)), true)
  }

  /** `pop` with a timeout of zero. */
  function Popped(cfg: Config, j: Jitter): (Jitter, Option<Packet>) {
    if !j.hasItem || j.prefill > 0 then (j, None) else
      if |j.buf| > cfg.prefsize
      then (Updated(cfg, j.(buf := Heapq.Pop(j.buf), cursor := j.buf[0].sequence)), Some(j.buf[0]))
      else (Updated(cfg, j), None)
  }

  function Peeked(cfg: Config, j: Jitter): Option<Packet> {
    if |j.buf| > cfg.prefsize then Some(j.buf[0]) else None
  }

  function PeekedNext(j: Jitter): Option<Packet> {
    if j.buf == [] then None
    else if j.buf[0].sequence == AddWrapped(j.cursor, 1) || j.cursor < 0 then Some(j.buf[0])
    else None
  }

  function Gap(j: Jitter): Seq16 {
    if j.buf != [] && j.cursor >= 0 then GapWrapped(j.cursor, j.buf[0].sequence) else 0
  }

  function Advanced(cfg: Config, j: Jitter, count: int := 1): Jitter {
    if count < 1 || j.cursor < 0 then j
    else Updated(cfg, j.(cursor := AddWrapped(j.cursor, count)))
  }

  function Resynced(cfg: Config, j: Jitter): Jitter {
    if j.buf == [] then j
    else Updated(cfg, j.(cursor := AddWrapped(j.buf[0].sequence, -1)))
  }

  /** `sorted`, by insertion: the order is the library's whenever `Before` is total. */
  function Insert(s: seq<Packet>, p: Packet): (r: seq<Packet>)
    ensures multiset(r) == multiset(s) + multiset{p} && |r| == |s| + 1
  {
    if s == [] then [p]
    else
      assert s == [s[0]] + s[1..];
      if Before(p, s[0]) then [p] + s else [s[0]] + Insert(s[1..], p)
  }

  function Sort(s: seq<Packet>): (r: seq<Packet>)
    ensures multiset(r) == multiset(s) && |r| == |s|
  {
    if s == [] then [] else
      assert s == s[..|s| - 1] + [s[|s| - 1]];
      Insert(Sort(s[..|s| - 1]), s[|s| - 1])
  }

  function Flushed(cfg: Config, j: Jitter): (Jitter, seq<Packet>) {
    var packets := Sort(j.buf);
    (Jitter([], if packets != [] then packets[|packets| - 1].sequence else j.cursor, cfg.prefill, false), packets)
  }

  // ----- The object -----

  class HeapJitterBuffer {
    const cfg: Config
    var buffer: seq<Packet>
    var lastTxSeq: Cursor
    var prefill: int
    var hasItem: bool

    ghost function View(): Jitter
      reads this
    {
      Jitter(buffer, lastTxSeq, prefill, hasItem)
    }

    constructor (maxsize: nat := 10, prefsize: nat := 1, prefill: int := 1)
      requires Config(maxsize, prefsize, prefill).Valid()
      ensures cfg == Config(maxsize, prefsize, prefill) && View() == Fresh(cfg)
    {
      cfg := Config(maxsize, prefsize, prefill);
      buffer := [];
      lastTxSeq := -1;
      this.prefill := prefill;
      hasItem := false;
    }

    method UpdateHasItem()
      modifies this`hasItem
      ensures View() == Updated(cfg, old(View()))
    {
      var prefilled := prefill == 0;
      var packetReady := |buffer| > cfg.prefsize;
      if !prefilled || !packetReady {
        hasItem := false;
        return;
      }
      var sequential := AddWrapped(lastTxSeq, 1) == buffer[0].sequence;
      var positive := lastTxSeq >= 0;
      if (sequential && positive) || !positive || |buffer| >= cfg.maxsize {
        hasItem := true;
      } else {
        hasItem := false;
      }
    }

    method Cleanup()
      modifies this`buffer
      ensures buffer == Cleaned(cfg, old(buffer))
    {
      while |buffer| > cfg.maxsize
        invariant Cleaned(cfg, buffer) == Cleaned(cfg, old(buffer))
      {
        var dropped, rest := HeapPop(buffer);
        buffer := rest;
      }
    }

    method Push(packet: Packet) returns (accepted: bool)
      modifies this
      ensures (View(), accepted) == Pushed(cfg, old(View()), packet)
    {
      var number := packet.sequence;
      if GapWrapped(lastTxSeq, number) > THRESHOLD && lastTxSeq != -1 {
        return false;
      }
      buffer := HeapPush(buffer, packet);
      if prefill > 0 {
        prefill := prefill - 1;
      }
      Cleanup();
      UpdateHasItem();
      accepted := true;
    }

    method Pop() returns (packet: Option<Packet>)
      modifies this
      ensures (View(), packet) == Popped(cfg, old(View()))
    {
      if !hasItem {
        return None;
      }
      if prefill > 0 {
        return None;
      }
      packet := None;
      if |buffer| > cfg.prefsize {
        var least, rest := HeapPop(buffer);
        buffer := rest;
        packet := Some(least);
      }
      if packet.Some? {
        lastTxSeq := packet.value.sequence;
      }
      UpdateHasItem();
    }

    method Peek(all: bool := false) returns (r: Option<Packet>)
      ensures r == if all && buffer != [] then Some(buffer[0]) else Peeked(cfg, View())
    {
      if buffer == [] {
        return None;
      }
      if all {
        return Some(buffer[0]);
      }
      r := if |buffer| > cfg.prefsize then Some(buffer[0]) else None;
    }

    method PeekNext() returns (r: Option<Packet>)
      ensures r == PeekedNext(View())
    {
      var packet := Peek(true);
      if packet.None? {
        return None;
      }
      if packet.value.sequence == AddWrapped(lastTxSeq, 1) || lastTxSeq < 0 {
        return packet;
      }
      r := None;
    }

    /** How many numbers are missing: counting on from the cursor by one more arrives at the head. */
    method CurrentGap() returns (r: Seq16)
      ensures r == Gap(View())
      ensures buffer != [] && lastTxSeq >= 0 ==> AddWrapped(lastTxSeq, r + 1) == buffer[0].sequence
      ensures r == 0 <==> buffer == [] || lastTxSeq < 0 || buffer[0].sequence == AddWrapped(lastTxSeq, 1)
    {
      if buffer == [] || lastTxSeq < 0 {
        return 0;
      }
      GapArrives(lastTxSeq, buffer[0].sequence);
      GapStep(lastTxSeq, buffer[0].sequence);
      r := GapWrapped(lastTxSeq, buffer[0].sequence);
    }

    method Advance(count: int := 1)
      modifies this
      ensures View() == Advanced(cfg, old(View()), count)
    {
      if count < 1 || lastTxSeq < 0 {
        return;
      }
      lastTxSeq := AddWrapped(lastTxSeq, count);
      UpdateHasItem();
    }

    method ResyncToNext()
      modifies this
      ensures View() == Resynced(cfg, old(View()))
    {
      if buffer == [] {
        return;
      }
      lastTxSeq := AddWrapped(buffer[0].sequence, -1);
      UpdateHasItem();
    }

    method Flush() returns (packets: seq<Packet>)
      modifies this
      ensures (View(), packets) == Flushed(cfg, old(View()))
    {
      packets := Sort(buffer);
      buffer := [];
      if packets != [] {
        lastTxSeq := packets[|packets| - 1].sequence;
      }
      prefill := cfg.prefill;
      hasItem := false;
    }

    method Reset()
      modifies this
      ensures View() == Fresh(cfg)
    {
      buffer := [];
      hasItem := false;
      prefill := cfg.prefill;
      lastTxSeq := -1;
    }
  }

  // ----- Readiness, for every input -----

  /** When a packet may leave the buffer. */
  predicate Ready(cfg: Config, j: Jitter) {
    && j.prefill == 0
    && |j.buf| > cfg.prefsize
    && (j.cursor < 0 || j.buf[0].sequence == (j.cursor + 1) % WRAP || |j.buf| >= cfg.maxsize)
  }

  ghost predicate Sound(cfg: Config, j: Jitter) {
    && (j.hasItem <==> Ready(cfg, j))
    && |j.buf| <= cfg.maxsize
  }

  datatype Op = Push(packet: Packet) | Pop | Advance(count: int) | Resync | Flush | Reset

  function After(cfg: Config, j: Jitter, op: Op): Jitter {
    match op
    case Push(p) => Pushed(cfg, j, p).0
    case Pop => Popped(cfg, j).0
    case Advance(n) => Advanced(cfg, j, n)
    case Resync => Resynced(cfg, j)
    case Flush => Flushed(cfg, j).0
    case Reset => Fresh(cfg)
  }

  function Run(cfg: Config, ops: seq<Op>): Jitter {
    if ops == [] then Fresh(cfg) else After(cfg, Run(cfg, ops[..|ops| - 1]), ops[|ops| - 1])
  }

  lemma {:induction false} CleanedFits(cfg: Config, buf: seq<Packet>)
    ensures |Cleaned(cfg, buf)| == if |buf| > cfg.maxsize then cfg.maxsize else |buf|
    decreases |buf|
  {
    if |buf| > cfg.maxsize {
      CleanedFits(cfg, Heapq.Pop(buf));
    }
  }

  lemma OpKeepsSound(cfg: Config, j: Jitter, op: Op)
    requires cfg.Valid() && Sound(cfg, j)
    ensures Sound(cfg, After(cfg, j, op))
  {
    hide Heapq.Push, Heapq.Pop;
    if op.Push? {
      CleanedFits(cfg, Heapq.Push(j.buf, op.packet));
    }
  }

  /** After any operations the flag says exactly whether a packet may leave, and the buffer is not overfull. */
  lemma {:induction false} AlwaysSound(cfg: Config, ops: seq<Op>)
    requires cfg.Valid()
    ensures Sound(cfg, Run(cfg, ops))
  {
    if ops != [] {
      AlwaysSound(cfg, ops[..|ops| - 1]);
      OpKeepsSound(cfg, Run(cfg, ops[..|ops| - 1]), ops[|ops| - 1]);
    }
  }

  /** Hence the two checks that `pop` makes after the flag decide nothing. */
  lemma {:induction false} PopChecksAreRedundant(cfg: Config, ops: seq<Op>)
    requires cfg.Valid()
    ensures var j := Run(cfg, ops);
            && Popped(cfg, j).1.Some? == j.hasItem
            && (j.hasItem ==> Popped(cfg, j).1 == Peeked(cfg, j) && j.prefill <= 0)
  {
    AlwaysSound(cfg, ops);
  }

  // ----- Without rollover or duplicates: a bounded sorted list that drops its least element -----

  ghost predicate Sorted(s: seq<Packet>) {
    forall i, k | 0 <= i < k < |s| :: s[i].sequence < s[k].sequence
  }

  /** The heap `buf` holds the sorted list `list`. */
  ghost predicate Holds(buf: seq<Packet>, list: seq<Packet>, all: set<Packet>) {
    Sorted(list) && multiset(buf) == multiset(list) && Ordered(buf) && Coherent(all) && Within(buf, all)
  }

  lemma HoldsLength(buf: seq<Packet>, list: seq<Packet>)
    requires multiset(buf) == multiset(list)
    ensures |buf| == |list|
  {
    assert |multiset(buf)| == |buf| && |multiset(list)| == |list|;
  }

  /** The root of the heap is the head of the list. */
  lemma RootIsHead(buf: seq<Packet>, list: seq<Packet>, all: set<Packet>)
    requires Holds(buf, list, all) && buf != []
    ensures list != [] && buf[0] == list[0]
  {
    HoldsLength(buf, list);
    assert buf[0] in multiset(list) && list[0] in multiset(buf);
    var i: nat :| i < |buf| && buf[i] == list[0];
    RootIsLeast(buf, i);
    var k :| 0 <= k < |list| && list[k] == buf[0];
  }

  lemma WithinMultiset(h: seq<Packet>, g: seq<Packet>, all: set<Packet>)
    requires Within(g, all) && multiset(h) <= multiset(g)
    ensures Within(h, all)
  {
    forall i | 0 <= i < |h|
      ensures h[i] in all
    {
      assert h[i] in multiset(h) && h[i] in multiset(g) && h[i] in g;
    }
  }

  lemma PopHolds(buf: seq<Packet>, list: seq<Packet>, all: set<Packet>)
    requires Holds(buf, list, all) && buf != []
    ensures list != [] && Holds(Heapq.Pop(buf), list[1..], all)
  {
    hide Heapq.Pop, Ordered;
    RootIsHead(buf, list, all);
    PopKeeps(buf);
    PopOrders(buf, all);
    assert list == [list[0]] + list[1..];
    WithinMultiset(Heapq.Pop(buf), buf, all);
  }

  /** Where a new packet goes in the sorted list. */
  function Inserted(list: seq<Packet>, p: Packet): (r: seq<Packet>)
    ensures |r| == |list| + 1
  {
    if list == [] || p.sequence < list[0].sequence then [p] + list
    else [list[0]] + Inserted(list[1..], p)
  }

  lemma {:induction false} InsertedAdds(list: seq<Packet>, p: Packet)
    ensures multiset(Inserted(list, p)) == multiset(list) + multiset{p}
    ensures forall q | q in Inserted(list, p) :: q == p || q in list
  {
    if list == [] || p.sequence < list[0].sequence {
    } else {
      assert list == [list[0]] + list[1..];
      InsertedAdds(list[1..], p);
    }
  }

  lemma ConsSorts(head: Packet, tail: seq<Packet>)
    requires Sorted(tail) && forall q | q in tail :: head.sequence < q.sequence
    ensures Sorted([head] + tail)
  {
    var s := [head] + tail;
    forall i, k | 0 <= i < k < |s|
      ensures s[i].sequence < s[k].sequence
    {
      assert s[k] == tail[k - 1];
    }
  }

  lemma {:induction false} InsertedSorts(list: seq<Packet>, p: Packet)
    requires Sorted(list)
    requires forall i | 0 <= i < |list| :: list[i].sequence != p.sequence
    ensures Sorted(Inserted(list, p))
    ensures multiset(Inserted(list, p)) == multiset(list) + multiset{p}
    ensures forall q | q in Inserted(list, p) :: q == p || q in list
  {
    InsertedAdds(list, p);
    if list == [] {
    } else if p.sequence < list[0].sequence {
      ConsSorts(p, list);
    } else {
      InsertedSorts(list[1..], p);
      ConsSorts(list[0], Inserted(list[1..], p));
    }
  }

  lemma PushHolds(buf: seq<Packet>, list: seq<Packet>, p: Packet, all: set<Packet>)
    requires Holds(buf, list, all) && p in all
    requires forall i | 0 <= i < |list| :: list[i].sequence != p.sequence
    ensures Holds(Heapq.Push(buf, p), Inserted(list, p), all)
  {
    hide Heapq.Push, Ordered, Inserted;
    PushKeeps(buf, p);
    PushOrders(buf, p, all);
    InsertedSorts(list, p);
    assert multiset(buf + [p]) == multiset(buf) + multiset{p};
    WithinMultiset(Heapq.Push(buf, p), buf + [p], all);
  }

  /** Pushing inserts in order and, when the buffer was full, drops the least packet. */
  lemma PushIsBoundedInsert(cfg: Config, buf: seq<Packet>, list: seq<Packet>, p: Packet, all: set<Packet>)
    requires Holds(buf, list, all) && p in all && |list| <= cfg.maxsize
    requires forall i | 0 <= i < |list| :: list[i].sequence != p.sequence
    ensures var more := Inserted(list, p);
            Holds(Cleaned(cfg, Heapq.Push(buf, p)), if |list| == cfg.maxsize then more[1..] else more, all)
  {
    hide Heapq.Push, Heapq.Pop, Inserted, Holds;
    PushHolds(buf, list, p, all);
    SameLength(buf, list, all);
    if |list| == cfg.maxsize {
      PopHolds(Heapq.Push(buf, p), Inserted(list, p), all);
    }
  }

  lemma SameLength(buf: seq<Packet>, list: seq<Packet>, all: set<Packet>)
    requires Holds(buf, list, all)
    ensures |buf| == |list|
  {
    HoldsLength(buf, list);
  }

  /** Under the same hypothesis `flush` hands the packets out in order. */
  lemma {:induction false} InsertSorts(s: seq<Packet>, p: Packet, all: set<Packet>)
    requires Sorted(s) && Coherent(all) && Within(s, all) && p in all
    requires forall i | 0 <= i < |s| :: s[i].sequence != p.sequence
    ensures Insert(s, p) == Inserted(s, p)
  {
    if s != [] {
      assert s[0] in all;
      InsertSorts(s[1..], p, all);
    }
  }

  ghost predicate Distinct(s: seq<Packet>) {
    forall i, k | 0 <= i < k < |s| :: s[i].sequence != s[k].sequence
  }

  lemma {:induction false} SortSorts(s: seq<Packet>, all: set<Packet>)
    requires Coherent(all) && Within(s, all) && Distinct(s)
    ensures Sorted(Sort(s))
  {
    if s != [] {
      var init, p := s[..|s| - 1], s[|s| - 1];
      SortSorts(init, all);
      var t := Sort(init);
      forall i | 0 <= i < |t|
        ensures t[i].sequence != p.sequence && t[i] in all
      {
        assert t[i] in multiset(init) && t[i] in init;
      }
      InsertSorts(t, p, all);
      InsertedSorts(t, p);
    }
  }

  /** After a flush the buffer is empty, fills up anew, and is past everything that was handed out. */
  lemma FlushExactly(cfg: Config, j: Jitter, all: set<Packet>)
    requires Coherent(all) && Within(j.buf, all) && Distinct(j.buf)
    ensures var (r, packets) := Flushed(cfg, j);
            && multiset(packets) == multiset(j.buf) && Sorted(packets)
            && r.buf == [] && !r.hasItem && r.prefill == cfg.prefill
            && (j.buf == [] ==> r.cursor == j.cursor)
            && (j.buf != [] ==> forall p | p in j.buf :: p.sequence <= r.cursor)
            && (j.buf != [] ==> exists p :: p in j.buf && p.sequence == r.cursor)
  {
    hide Sort;
    SortSorts(j.buf, all);
    var packets := Sort(j.buf);
    if j.buf != [] {
      var last := packets[|packets| - 1];
      assert last in multiset(j.buf) && last in j.buf;
      forall p | p in j.buf
        ensures p.sequence <= last.sequence
      {
        assert p in multiset(packets) && p in packets;
        var i :| 0 <= i < |packets| && packets[i] == p;
      }
    }
  }

  /** Of two packets that arrive in the wrong order, the one sent first is handed out first exactly if the numbers did
      not roll over between them. */
  lemma SwappedPairIsSortedExactly(p: Packet, q: Packet)
    requires p.timestamp < q.timestamp
    ensures var j := Pushed(DEFAULT, Pushed(DEFAULT, Fresh(DEFAULT), q).0, p).0;
            && (Popped(DEFAULT, j).1 == Some(p) <==> p.sequence < q.sequence)
            && (Popped(DEFAULT, j).1 == Some(q) <==> p.sequence >= q.sequence)
  {
    hide Heapq.Push, Heapq.Pop, Cleaned;
    PushTwo(p, q);
    var one := Pushed(DEFAULT, Fresh(DEFAULT), q).0;
    assert Cleaned(DEFAULT, [q]) == [q] && Cleaned(DEFAULT, Heapq.Push([q], p)) == Heapq.Push([q], p) by {
      Fits([q]);
      Fits(Heapq.Push([q], p));
    }
    assert one == Jitter([q], -1, 0, false);
  }

  lemma PushTwo(p: Packet, q: Packet)
    ensures Heapq.Push([], q) == [q]
    ensures Heapq.Push([q], p) == if Before(p, q) then [p, q] else [q, p]
  {
    assert [] + [q] == [q] && [q][0 := q] == [q];
    var two := [q] + [p];
    assert two[0] == q && two[1 := p] == [q, p];
    assert two[1 := q][0 := p] == [p, q];
    assert SiftDown(two[1 := q], 0, p) == [p, q];
  }

  lemma Fits(buf: seq<Packet>)
    requires |buf| <= 10
    ensures Cleaned(DEFAULT, buf) == buf
  {
  }
}
