/** The binary heap of Python's `heapq`, over voice packets (the `_buffer` list of buffer.py). */
module Heapq {
  import opened Bytes
  import opened Modular

  /** What the jitter buffer and the decoder see of a packet. `genuine` is its truth value: a `FakePacket`
      is false. `needsInner` stands for the two inner-decryption flags in its extension data. */
  datatype Packet = Packet(
    ssrc: nat, sequence: Seq16, timestamp: int, genuine: bool, needsInner: bool, payload: Bytes)

  /** `_PacketCmpMixin.__lt__` for packets of one SSRC: both numbers have to be smaller. */
  predicate Before(a: Packet, b: Packet) {
    a.sequence < b.sequence && a.timestamp < b.timestamp
  }

  // ----- The sift loops as functions: `item` travels, `pos` is the hole it will fill -----

  /** `_siftdown`: towards the root. */
  function SiftDown(h: seq<Packet>, pos: nat, item: Packet): (r: seq<Packet>)
    requires pos < |h|
    ensures |r| == |h|
    decreases pos
  {
    if pos == 0 then h[pos := item] else
      var parent := (pos - 1) / 2;
      if Before(item, h[parent]) then SiftDown(h[pos := h[parent]], parent, item) else h[pos := item]
  }

  function SmallerChild(h: seq<Packet>, pos: nat): (c: nat)
    requires 2 * pos + 1 < |h|
    ensures pos < c < |h| && (c - 1) / 2 == pos
  {
    var left := 2 * pos + 1;
    if left + 1 < |h| && !Before(h[left], h[left + 1]) then left + 1 else left
  }

  /** `_siftup`: to a leaf, pulling up the smaller child, then towards the root. */
  function SiftUp(h: seq<Packet>, pos: nat, item: Packet): (r: seq<Packet>)
    requires pos < |h|
    ensures |r| == |h|
    decreases |h| - pos
  {
    if 2 * pos + 1 < |h| then
      var c := SmallerChild(h, pos);
      SiftUp(h[pos := h[c]], c, item)
    else SiftDown(h[pos := item], pos, item)
  }

  /** `heappush`. */
  function Push(h: seq<Packet>, item: Packet): (r: seq<Packet>)
    ensures |r| == |h| + 1
  {
    SiftDown(h + [item], |h|, item)
  }

  /** What `heappop` leaves; it returns `h[0]`. */
  function Pop(h: seq<Packet>): (r: seq<Packet>)
    requires h != []
    ensures |r| == |h| - 1
  {
    var rest := h[..|h| - 1];
    if rest == [] then [] else SiftUp(rest, 0, h[|h| - 1])
  }

  // ----- The loops themselves -----

  method SiftDownLoop(heap: seq<Packet>, start: nat) returns (h: seq<Packet>)
    requires start < |heap|
    ensures h == SiftDown(heap, start, heap[start])
  {
    h := heap;
    var pos := start;
    var item := h[pos];
    while pos > 0
      invariant pos < |h| == |heap|
      invariant SiftDown(h, pos, item) == SiftDown(heap, start, heap[start])
      decreases pos
    {
      var parent := (pos - 1) / 2;
      if !Before(item, h[parent]) {
        break;
      }
      h := h[pos := h[parent]];
      pos := parent;
    }
    h := h[pos := item];
  }

  method SiftUpLoop(heap: seq<Packet>, start: nat) returns (h: seq<Packet>)
    requires start < |heap|
    ensures h == SiftUp(heap, start, heap[start])
  {
    h := heap;
    var pos := start;
    var item := h[pos];
    var child := 2 * pos + 1;
    while child < |h|
      invariant pos < |h| == |heap| && child == 2 * pos + 1
      invariant SiftUp(h, pos, item) == SiftUp(heap, start, heap[start])
      decreases |h| - pos
    {
      var right := child + 1;
      if right < |h| && !Before(h[child], h[right]) {
        child := right;
      }
      h := h[pos := h[child]];
      pos := child;
      child := 2 * pos + 1;
    }
    h := h[pos := item];
    h := SiftDownLoop(h, pos);
  }

  method HeapPush(heap: seq<Packet>, item: Packet) returns (h: seq<Packet>)
    ensures h == Push(heap, item)
  {
    h := heap + [item];
    h := SiftDownLoop(h, |h| - 1);
  }

  method HeapPop(heap: seq<Packet>) returns (least: Packet, h: seq<Packet>)
    requires heap != []
    ensures least == heap[0] && h == Pop(heap)
  {
    var last := heap[|heap| - 1];
    h := heap[..|heap| - 1];
    if h != [] {
      least := h[0];
      h := h[0 := last];
      h := SiftUpLoop(h, 0);
      SiftUpIgnoresHole(heap[..|heap| - 1], 0, last);
    } else {
      least := last;
    }
  }

  /** What is in the hole does not matter. */
  lemma SiftUpIgnoresHole(h: seq<Packet>, pos: nat, x: Packet)
    requires pos < |h|
    ensures SiftUp(h[pos := x], pos, x) == SiftUp(h, pos, x)
  {
    if 2 * pos + 1 < |h| {
      var c := SmallerChild(h, pos);
      assert h[pos := x][pos := h[c]] == h[pos := h[c]];
    } else {
      assert h[pos := x][pos := x] == h[pos := x];
    }
  }

  // ----- No packet is lost or invented, for any input -----

  lemma UpdateMultiset(h: seq<Packet>, i: nat, x: Packet)
    requires i < |h|
    ensures multiset(h[i := x]) == multiset(h) - multiset{h[i]} + multiset{x}
  {
    assert h == h[..i] + [h[i]] + h[i + 1..];
    assert h[i := x] == h[..i] + [x] + h[i + 1..];
  }

  lemma {:induction false} SiftDownKeeps(h: seq<Packet>, pos: nat, item: Packet)
    requires pos < |h|
    ensures multiset(SiftDown(h, pos, item)) == multiset(h) - multiset{h[pos]} + multiset{item}
    decreases pos
  {
    UpdateMultiset(h, pos, item);
    if pos > 0 {
      var parent := (pos - 1) / 2;
      if Before(item, h[parent]) {
        UpdateMultiset(h, pos, h[parent]);
        SiftDownKeeps(h[pos := h[parent]], parent, item);
      }
    }
  }

  lemma {:induction false} SiftUpKeeps(h: seq<Packet>, pos: nat, item: Packet)
    requires pos < |h|
    ensures multiset(SiftUp(h, pos, item)) == multiset(h) - multiset{h[pos]} + multiset{item}
    decreases |h| - pos
  {
    if 2 * pos + 1 < |h| {
      var c := SmallerChild(h, pos);
      UpdateMultiset(h, pos, h[c]);
      SiftUpKeeps(h[pos := h[c]], c, item);
    } else {
      UpdateMultiset(h, pos, item);
      SiftDownKeeps(h[pos := item], pos, item);
    }
  }

  lemma PushKeeps(h: seq<Packet>, item: Packet)
    ensures multiset(Push(h, item)) == multiset(h) + multiset{item}
  {
    SiftDownKeeps(h + [item], |h|, item);
  }

  lemma PopKeeps(h: seq<Packet>)
    requires h != []
    ensures multiset(Pop(h)) == multiset(h) - multiset{h[0]}
  {
    var rest, last := h[..|h| - 1], h[|h| - 1];
    assert h == rest + [last];
    if rest != [] {
      SiftUpKeeps(rest, 0, last);
    }
  }

  // ----- Heap order, when timestamps follow sequence numbers -----

  /** Among the packets `all`, timestamps grow with sequence numbers. */
  ghost predicate Coherent(all: set<Packet>) {
    forall a, b | a in all && b in all && a.sequence < b.sequence :: a.timestamp < b.timestamp
  }

  ghost predicate Within(h: seq<Packet>, all: set<Packet>) {
    forall i | 0 <= i < |h| :: h[i] in all
  }

  ghost predicate ParentFirst(h: seq<Packet>, i: nat)
    requires 0 < i < |h|
  {
    h[(i - 1) / 2].sequence <= h[i].sequence
  }

  ghost predicate Ordered(h: seq<Packet>) {
    forall i: nat | 0 < i < |h| :: ParentFirst(h, i)
  }

  /** Heap order everywhere but at the hole, whose children already respect its parent. */
  ghost predicate OrderedAround(h: seq<Packet>, pos: nat)
    requires pos < |h|
  {
    forall i: nat | 0 < i < |h| && i != pos ::
      if (i - 1) / 2 != pos then ParentFirst(h, i)
      else pos > 0 ==> h[(pos - 1) / 2].sequence <= h[i].sequence
  }

  ghost predicate BelowHole(h: seq<Packet>, pos: nat, item: Packet) {
    forall i: nat | 0 < i < |h| && (i - 1) / 2 == pos :: item.sequence <= h[i].sequence
  }

  /** The parent moves into the hole, which moves up. */
  lemma HoleMovesUp(h: seq<Packet>, pos: nat, item: Packet)
    requires 0 < pos < |h| && OrderedAround(h, pos)
    requires item.sequence <= h[(pos - 1) / 2].sequence && BelowHole(h, pos, item)
    ensures var parent := (pos - 1) / 2;
            var g := h[pos := h[parent]];
            OrderedAround(g, parent) && BelowHole(g, parent, item)
  {
    var parent := (pos - 1) / 2;
    var g := h[pos := h[parent]];
    assert parent > 0 ==> ParentFirst(h, parent);
    forall i: nat | 0 < i < |g| && i != parent
      ensures if (i - 1) / 2 != parent then ParentFirst(g, i)
              else (parent > 0 ==> g[(parent - 1) / 2].sequence <= g[i].sequence) && item.sequence <= g[i].sequence
    {
      assert i != pos && (i - 1) / 2 != pos ==> ParentFirst(h, i);
    }
  }

  lemma HoleIsFilled(h: seq<Packet>, pos: nat, item: Packet)
    requires pos < |h| && OrderedAround(h, pos) && BelowHole(h, pos, item)
    requires pos > 0 ==> h[(pos - 1) / 2].sequence <= item.sequence
    ensures Ordered(h[pos := item])
  {
    var g := h[pos := item];
    forall i: nat | 0 < i < |g|
      ensures ParentFirst(g, i)
    {
      assert i != pos && (i - 1) / 2 != pos ==> ParentFirst(h, i);
    }
  }

  /** The smaller child moves into the hole, which moves down. */
  lemma HoleMovesDown(h: seq<Packet>, pos: nat, c: nat)
    requires pos < c < |h| && (c - 1) / 2 == pos && OrderedAround(h, pos)
    requires BelowHole(h, pos, h[c])
    ensures OrderedAround(h[pos := h[c]], c)
  {
    var g := h[pos := h[c]];
    forall i: nat | 0 < i < |g| && i != c
      ensures if (i - 1) / 2 != c then ParentFirst(g, i)
              else c > 0 ==> g[(c - 1) / 2].sequence <= g[i].sequence
    {
      if i != pos {
        assert (i - 1) / 2 != pos ==> ParentFirst(h, i);
      } else {
        assert pos > 0 ==> h[(pos - 1) / 2].sequence <= h[c].sequence;
      }
    }
  }

  lemma {:induction false} SiftDownOrders(h: seq<Packet>, pos: nat, item: Packet, all: set<Packet>)
    requires pos < |h| && OrderedAround(h, pos) && BelowHole(h, pos, item)
    requires Coherent(all) && Within(h, all) && item in all
    ensures Ordered(SiftDown(h, pos, item))
    decreases pos
  {
    hide OrderedAround, Ordered, BelowHole;
    var parent := (pos - 1) / 2;
    if pos > 0 && Before(item, h[parent]) {
      HoleMovesUp(h, pos, item);
      SiftDownOrders(h[pos := h[parent]], parent, item, all);
    } else {
      HoleIsFilled(h, pos, item);
    }
  }

  lemma SmallerChildIsLeast(h: seq<Packet>, pos: nat, all: set<Packet>)
    requires 2 * pos + 1 < |h| && Coherent(all) && Within(h, all)
    ensures BelowHole(h, pos, h[SmallerChild(h, pos)])
  {
    var left := 2 * pos + 1;
    assert h[left] in all && (left + 1 < |h| ==> h[left + 1] in all);
  }

  lemma {:induction false} SiftUpOrders(h: seq<Packet>, pos: nat, item: Packet, all: set<Packet>)
    requires pos < |h| && OrderedAround(h, pos)
    requires Coherent(all) && Within(h, all) && item in all
    ensures Ordered(SiftUp(h, pos, item))
    decreases |h| - pos
  {
    hide OrderedAround, Ordered, SiftDown;
    if 2 * pos + 1 < |h| {
      var c := SmallerChild(h, pos);
      SmallerChildIsLeast(h, pos, all);
      HoleMovesDown(h, pos, c);
      SiftUpOrders(h[pos := h[c]], c, item, all);
    } else {
      LeafHole(h, pos, item);
      SiftDownOrders(h[pos := item], pos, item, all);
    }
  }

  /** At a leaf nothing is below the hole, so its content is free. */
  lemma LeafHole(h: seq<Packet>, pos: nat, item: Packet)
    requires pos < |h| <= 2 * pos + 1 && OrderedAround(h, pos)
    ensures OrderedAround(h[pos := item], pos) && BelowHole(h[pos := item], pos, item)
  {
    var g := h[pos := item];
    forall i: nat | 0 < i < |g| && i != pos
      ensures (i - 1) / 2 != pos && ParentFirst(g, i)
    {
      assert ParentFirst(h, i);
    }
  }

  lemma PushOrders(h: seq<Packet>, item: Packet, all: set<Packet>)
    requires Ordered(h) && Coherent(all) && Within(h, all) && item in all
    ensures Ordered(Push(h, item))
  {
    var g := h + [item];
    forall i: nat | 0 < i < |h|
      ensures ParentFirst(g, i)
    {
      assert ParentFirst(h, i);
    }
    SiftDownOrders(g, |h|, item, all);
  }

  lemma PopOrders(h: seq<Packet>, all: set<Packet>)
    requires h != [] && Ordered(h) && Coherent(all) && Within(h, all)
    ensures Ordered(Pop(h))
  {
    var rest := h[..|h| - 1];
    if rest != [] {
      forall i: nat | 0 < i < |rest|
        ensures ParentFirst(rest, i)
      {
        assert ParentFirst(h, i);
      }
      SiftUpOrders(rest, 0, h[|h| - 1], all);
    }
  }

  /** The root is a packet with the least sequence number. */
  lemma {:induction false} RootIsLeast(h: seq<Packet>, i: nat)
    requires Ordered(h) && i < |h|
    ensures h[0].sequence <= h[i].sequence
  {
    if i > 0 {
      assert ParentFirst(h, i);
      RootIsLeast(h, (i - 1) / 2);
    }
  }
}
