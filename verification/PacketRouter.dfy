/** The router and its loop (router.py), over decoders that wake it up (opus.py). */
module Routing {
  import opened Modular
  import opened WakeUp
  import opened Heapq
  import opened JitterBuffer
  import opened PacketDecoding

  /** `deque(maxlen=16)`. */
  const MAX_DROPPED: nat := 16

  datatype VoiceData = VoiceData(packet: Packet, choice: Choice)

  /** Decoders are numbered in order of creation; `table` is the `decoders` dictionary, `items` the wake-up
      list, `written` what the sink got. */
  datatype Router = Router(
    table: map<nat, nat>, decoders: seq<Decoder>, items: seq<nat>, dropped: seq<nat>, written: seq<VoiceData>)

  const EMPTY: Router := Router(map[], [], [], [], [])

  // ----- The operations as functions -----

  /** `_flag_ready_state`: one registration more while a packet could be handed out, one less otherwise. */
  function Flagged(items: seq<nat>, id: nat, d: Decoder): seq<nat> {
    if Peeked(DEFAULT, d.jitter).Some? then items + [id] else RemoveFirst(items, id)
  }

  function With(r: Router, id: nat, d: Decoder): Router
    requires id < |r.decoders|
  {
    r.(decoders := r.decoders[id := d], items := Flagged(r.items, id, d))
  }

  /** `get_decoder`. */
  function WithDecoder(r: Router, ssrc: nat): Router {
    if ssrc in r.table then r
    else r.(table := r.table[ssrc := |r.decoders|], decoders := r.decoders + [FreshDecoder(ssrc)])
  }

  function Fed(r: Router, p: Packet): Router
    requires Linked(r)
  {
    if p.ssrc in r.dropped then r else
      var s := WithDecoder(r, p.ssrc);
      var id := s.table[p.ssrc];
      With(s, id, PushPacket(s.decoders[id], p).0)
  }

  /** `append` on a deque of bounded length: the oldest entry makes room. */
  function Remembered(dropped: seq<nat>, ssrc: nat): (r: seq<nat>)
    ensures |dropped| <= MAX_DROPPED ==> |r| <= MAX_DROPPED
    ensures ssrc in r
  {
    var more := dropped + [ssrc];
    assert more[|dropped|] == ssrc;
    if |more| > MAX_DROPPED then
      assert more[1..][|more| - 2] == ssrc;
      more[1..]
    else more
  }

  /** `destroy`: the buffer is reset, the numbers last emitted stay. */
  function Destroyed(r: Router, ssrc: nat): Router
    requires Linked(r)
  {
    if ssrc !in r.table then r else
      var id := r.table[ssrc];
      With(r.(table := r.table - {ssrc}, dropped := Remembered(r.dropped, ssrc)),
           id, r.decoders[id].(jitter := Fresh(DEFAULT)))
  }

  function Readmitted(r: Router, ssrc: nat): Router {
    r.(dropped := RemoveFirst(r.dropped, ssrc))
  }

  /** One `pop_data` of the loop, and the write it may cause. */
  function Visited(r: Router, id: nat, maxConceal: nat, wantsOpus: bool): Router
    requires id < |r.decoders|
  {
    var (d, e) := PopData(r.decoders[id], maxConceal, wantsOpus);
    var s := With(r, id, d);
    if e.Emitted? then s.(written := s.written + [VoiceData(e.packet, e.choice)]) else s
  }

  /** One turn of the loop, over a copy of the wake-up list. */
  function Turn(r: Router, snapshot: seq<nat>, maxConceal: nat, wantsOpus: bool): (s: Router)
    requires forall id | id in snapshot :: id < |r.decoders|
    ensures |s.decoders| == |r.decoders|
    decreases |snapshot|
  {
    if snapshot == [] then r else
      assert snapshot[0] in snapshot && forall id | id in snapshot[1..] :: id in snapshot;
      Turn(Visited(r, snapshot[0], maxConceal, wantsOpus), snapshot[1..], maxConceal, wantsOpus)
  }

  // ----- What every operation keeps -----

  ghost predicate Linked(r: Router) {
    && (forall ssrc | ssrc in r.table :: r.table[ssrc] < |r.decoders| && r.decoders[r.table[ssrc]].ssrc == ssrc)
    && (forall id | id in r.items :: id < |r.decoders|)
  }

  /** The readiness flag is right, and prefilling has not begun unless it is over. */
  ghost predicate Steady(d: Decoder) {
    && Sound(DEFAULT, d.jitter)
    && (d.jitter.prefill == 0 || (d.jitter.prefill == 1 && d.jitter.buf == []))
    && (forall p | p in d.jitter.buf :: p.ssrc == d.ssrc)
  }

  predicate Releasable(d: Decoder) {
    |d.jitter.buf| > DEFAULT.prefsize
  }

  /** Whoever could hand out a packet is registered. */
  ghost predicate Invariant(r: Router) {
    && Linked(r)
    && (forall id | 0 <= id < |r.decoders| :: Steady(r.decoders[id]))
    && (forall id | 0 <= id < |r.decoders| && Releasable(r.decoders[id]) :: id in r.items)
    && |r.dropped| <= MAX_DROPPED
  }

  lemma SameSsrcAfterPush(cfg: Config, j: Jitter, p: Packet, ssrc: nat)
    requires forall q | q in j.buf :: q.ssrc == ssrc
    requires p.ssrc == ssrc
    ensures forall q | q in Pushed(cfg, j, p).0.buf :: q.ssrc == ssrc
  {
    hide Heapq.Push, Heapq.Pop;
    PushKeeps(j.buf, p);
    forall q | q in Heapq.Push(j.buf, p)
      ensures q.ssrc == ssrc
    {
      assert q in multiset(Heapq.Push(j.buf, p));
      assert q == p || q in multiset(j.buf);
    }
    CleanedShrinks(cfg, Heapq.Push(j.buf, p));
  }

  lemma {:induction false} CleanedShrinks(cfg: Config, buf: seq<Packet>)
    ensures forall q | q in Cleaned(cfg, buf) :: q in buf
    decreases |buf|
  {
    hide Heapq.Pop;
    if |buf| > cfg.maxsize {
      PopShrinks(buf);
      CleanedShrinks(cfg, Heapq.Pop(buf));
    }
  }

  lemma PopShrinks(buf: seq<Packet>)
    requires buf != []
    ensures forall q | q in Heapq.Pop(buf) :: q in buf
  {
    PopKeeps(buf);
    forall q | q in Heapq.Pop(buf)
      ensures q in buf
    {
      assert q in multiset(Heapq.Pop(buf)) && q in multiset(buf);
    }
  }

  lemma PushSteady(d: Decoder, p: Packet)
    requires Steady(d) && p.ssrc == d.ssrc
    ensures Steady(PushPacket(d, p).0)
  {
    hide Heapq.Push, Cleaned;
    OpKeepsSound(DEFAULT, d.jitter, Push(p));
    SameSsrcAfterPush(DEFAULT, d.jitter, p, d.ssrc);
  }

  /** Work left in one decoder when it can hand out packets: the numbers missing before its head. */
  function Missing(d: Decoder): nat {
    if Releasable(d) then Gap(d.jitter) else 0
  }

  /** One `pop_data` makes progress: a packet leaves, or the gap shrinks, or there was nothing to release. */
  lemma PopProgress(d: Decoder, maxConceal: nat, wantsOpus: bool)
    requires Steady(d)
    ensures var d' := PopData(d, maxConceal, wantsOpus).0;
            && Steady(d') && d'.ssrc == d.ssrc
            && (|| |d'.jitter.buf| < |d.jitter.buf|
                || (d'.jitter.buf == d.jitter.buf && Releasable(d) && Missing(d') < Missing(d))
                || (d'.jitter.buf == d.jitter.buf && !Releasable(d)))
  {
    hide Heapq.Pop, Choose;
    var j := d.jitter;
    if j.hasItem {
      PopShrinks(j.buf);
      OpKeepsSound(DEFAULT, j, Pop);
    } else {
      OpKeepsSound(DEFAULT, j, Advance(1));
      OpKeepsSound(DEFAULT, j, Resync);
      if j.buf != [] && j.cursor >= 0 {
        GapStep(j.cursor, j.buf[0].sequence);
        GapStep(j.buf[0].sequence, j.buf[0].sequence);
      }
    }
  }

  // ----- Sums over the decoders -----

  function Buffered(ds: seq<Decoder>): nat {
    if ds == [] then 0 else |ds[0].jitter.buf| + Buffered(ds[1..])
  }

  function Gaps(ds: seq<Decoder>): nat {
    if ds == [] then 0 else Missing(ds[0]) + Gaps(ds[1..])
  }

  lemma {:induction false} SumsAfterUpdate(ds: seq<Decoder>, id: nat, d: Decoder)
    requires id < |ds|
    ensures Buffered(ds[id := d]) == Buffered(ds) - |ds[id].jitter.buf| + |d.jitter.buf|
    ensures Gaps(ds[id := d]) == Gaps(ds) - Missing(ds[id]) + Missing(d)
  {
    if id == 0 {
      assert ds[0 := d][1..] == ds[1..];
    } else {
      assert ds[id := d][1..] == ds[1..][id - 1 := d];
      SumsAfterUpdate(ds[1..], id - 1, d);
    }
  }

  /** Lexicographic: packets buffered, numbers missing before releasable heads, registrations. */
  ghost predicate Smaller(a: Router, b: Router) {
    || Buffered(a.decoders) < Buffered(b.decoders)
    || (Buffered(a.decoders) == Buffered(b.decoders)
        && (|| Gaps(a.decoders) < Gaps(b.decoders)
            || (Gaps(a.decoders) == Gaps(b.decoders) && |a.items| < |b.items|)))
  }

  lemma FlaggedKeepsOthers(items: seq<nat>, id: nat, d: Decoder, other: nat)
    requires other != id
    ensures other in items ==> other in Flagged(items, id, d)
    ensures other in Flagged(items, id, d) ==> other in items
  {
    var after := Flagged(items, id, d);
    RemoveFirstCounts(items, id);
    var was: multiset<nat>, now: multiset<nat> := multiset(items), multiset(after);
    assert was[other] == now[other];
    assert other in items <==> other in was;
    assert other in after <==> other in now;
  }

  lemma WithKeepsInvariant(r: Router, id: nat, d: Decoder)
    requires Invariant(r) || (Linked(r) && id < |r.decoders| && InvariantBut(r, id))
    requires id < |r.decoders| && Steady(d) && d.ssrc == r.decoders[id].ssrc
    ensures Invariant(With(r, id, d))
  {
    hide Steady;
    var s := With(r, id, d);
    forall k | k in s.items
      ensures k < |s.decoders|
    {
      if k != id {
        FlaggedKeepsOthers(r.items, id, d, k);
      }
    }
    forall k | 0 <= k < |s.decoders| && Releasable(s.decoders[k])
      ensures k in s.items
    {
      if k != id {
        FlaggedKeepsOthers(r.items, id, d, k);
      } else {
        assert s.items[|r.items|] == id;
      }
    }
  }

  /** The invariant for all decoders but one. */
  ghost predicate InvariantBut(r: Router, id: nat) {
    && Linked(r)
    && (forall k | 0 <= k < |r.decoders| && k != id :: Steady(r.decoders[k]))
    && (forall k | 0 <= k < |r.decoders| && k != id && Releasable(r.decoders[k]) :: k in r.items)
    && |r.dropped| <= MAX_DROPPED
  }

  lemma VisitKeepsInvariant(r: Router, id: nat, maxConceal: nat, wantsOpus: bool)
    requires Invariant(r) && id < |r.decoders|
    ensures Invariant(Visited(r, id, maxConceal, wantsOpus))
  {
    hide PopData;
    PopProgress(r.decoders[id], maxConceal, wantsOpus);
    WithKeepsInvariant(r, id, PopData(r.decoders[id], maxConceal, wantsOpus).0);
  }

  /** Visiting a registered decoder makes the measure smaller. */
  lemma VisitDecreases(r: Router, id: nat, maxConceal: nat, wantsOpus: bool)
    requires Invariant(r) && id in r.items
    ensures Smaller(Visited(r, id, maxConceal, wantsOpus), r)
  {
    hide PopData, Steady, Gap;
    var d := r.decoders[id];
    var d' := PopData(d, maxConceal, wantsOpus).0;
    PopProgress(d, maxConceal, wantsOpus);
    SumsAfterUpdate(r.decoders, id, d');
  }

  /** A visit takes back at most the registration it is made for, so the rest of the copy stays covered. */
  lemma SnapshotStaysCovered(r: Router, snapshot: seq<nat>, maxConceal: nat, wantsOpus: bool)
    requires snapshot != [] && multiset(snapshot) <= multiset(r.items) && snapshot[0] < |r.decoders|
    ensures multiset(snapshot[1..]) <= multiset(Visited(r, snapshot[0], maxConceal, wantsOpus).items)
  {
    hide PopData, Peeked, RemoveFirst;
    var id := snapshot[0];
    RemoveFirstCounts(r.items, id);
    assert snapshot == [id] + snapshot[1..];
    var now := Visited(r, id, maxConceal, wantsOpus).items;
    assert now == r.items + [id] || now == RemoveFirst(r.items, id);
  }

  lemma SmallerIsTransitive(a: Router, b: Router, c: Router)
    requires Smaller(a, b) && Smaller(b, c)
    ensures Smaller(a, c)
  {
  }

  lemma CoveredAreDecoders(r: Router, snapshot: seq<nat>)
    requires Linked(r) && multiset(snapshot) <= multiset(r.items)
    ensures forall id | id in snapshot :: id in r.items && id < |r.decoders|
  {
    forall id | id in snapshot
      ensures id in r.items
    {
      assert id in multiset(snapshot) && id in multiset(r.items);
    }
  }

  /** A turn over a covered copy keeps the invariant, and shrinks the measure unless the copy was empty. */
  lemma {:induction false} TurnShrinks(r: Router, snapshot: seq<nat>, maxConceal: nat, wantsOpus: bool)
    requires Invariant(r) && multiset(snapshot) <= multiset(r.items)
    ensures forall id | id in snapshot :: id < |r.decoders|
    ensures Invariant(Turn(r, snapshot, maxConceal, wantsOpus))
    ensures snapshot != [] ==> Smaller(Turn(r, snapshot, maxConceal, wantsOpus), r)
    decreases |snapshot|
  {
    hide Invariant, Visited, Smaller;
    InvariantLinks(r);
    CoveredAreDecoders(r, snapshot);
    if snapshot != [] {
      assert snapshot[0] in snapshot;
      var next := Visited(r, snapshot[0], maxConceal, wantsOpus);
      VisitKeepsInvariant(r, snapshot[0], maxConceal, wantsOpus);
      VisitDecreases(r, snapshot[0], maxConceal, wantsOpus);
      SnapshotStaysCovered(r, snapshot, maxConceal, wantsOpus);
      TurnShrinks(next, snapshot[1..], maxConceal, wantsOpus);
      if snapshot[1..] != [] {
        SmallerIsTransitive(Turn(r, snapshot, maxConceal, wantsOpus), next, r);
      }
    }
  }

  lemma InvariantLinks(r: Router)
    requires Invariant(r)
    ensures Linked(r)
  {
  }

  /** The loop with no new packets: turns until nothing is registered. That this function is defined for
      every router state is the termination of the loop. */
  ghost function Settled(r: Router, maxConceal: nat, wantsOpus: bool): (s: Router)
    requires Invariant(r)
    ensures Invariant(s) && s.items == []
    decreases Buffered(r.decoders), Gaps(r.decoders), |r.items|
  {
    if r.items == [] then r else
      TurnShrinks(r, r.items, maxConceal, wantsOpus);
      Settled(Turn(r, r.items, maxConceal, wantsOpus), maxConceal, wantsOpus)
  }

  /** When the loop goes to sleep, no decoder holds a packet it could hand out. */
  lemma SettledIsExhausted(r: Router, maxConceal: nat, wantsOpus: bool)
    requires Invariant(r)
    ensures forall id | 0 <= id < |Settled(r, maxConceal, wantsOpus).decoders| ::
              !Releasable(Settled(r, maxConceal, wantsOpus).decoders[id])
  {
    var s := Settled(r, maxConceal, wantsOpus);
    assert Invariant(s) && s.items == [];
  }

  // ----- Every reachable router -----

  datatype RouterOp =
    | Feed(packet: Packet)
    | RunOnce(maxConceal: nat, wantsOpus: bool)
    | Destroy(ssrc: nat)
    | SetUser(ssrc: nat)

  lemma DecoderAdded(r: Router, ssrc: nat)
    requires Invariant(r)
    ensures Invariant(WithDecoder(r, ssrc))
    ensures ssrc in WithDecoder(r, ssrc).table
  {
    hide Sound;
    FreshIsSteady(ssrc);
  }

  lemma FreshIsSteady(ssrc: nat)
    ensures Steady(FreshDecoder(ssrc))
  {
  }

  lemma FeedKeepsInvariant(r: Router, p: Packet)
    requires Invariant(r)
    ensures Invariant(Fed(r, p))
  {
    hide Steady, PushPacket, FreshDecoder;
    if p.ssrc !in r.dropped {
      DecoderAdded(r, p.ssrc);
      var s := WithDecoder(r, p.ssrc);
      var id := s.table[p.ssrc];
      PushSteady(s.decoders[id], p);
      KeepsSsrc(s.decoders[id], p);
      WithKeepsInvariant(s, id, PushPacket(s.decoders[id], p).0);
    }
  }

  lemma KeepsSsrc(d: Decoder, p: Packet)
    ensures PushPacket(d, p).0.ssrc == d.ssrc
  {
  }

  lemma DestroyKeepsInvariant(r: Router, ssrc: nat)
    requires Invariant(r)
    ensures Invariant(Destroyed(r, ssrc))
  {
    if ssrc in r.table {
      var id := r.table[ssrc];
      var d := r.decoders[id].(jitter := Fresh(DEFAULT));
      assert Steady(d);
      var s := r.(table := r.table - {ssrc}, dropped := Remembered(r.dropped, ssrc));
      hide Steady;
      WithKeepsInvariant(s, id, d);
    }
  }

  function Applied(r: Router, op: RouterOp): Router
    requires Linked(r)
  {
    match op
    case Feed(p) => Fed(r, p)
    case RunOnce(m, opus) => Turn(r, r.items, m, opus)
    case Destroy(ssrc) => Destroyed(r, ssrc)
    case SetUser(ssrc) => Readmitted(r, ssrc)
  }

  lemma OpKeepsInvariant(r: Router, op: RouterOp)
    requires Invariant(r)
    ensures Invariant(Applied(r, op))
  {
    match op
    case Feed(p) => FeedKeepsInvariant(r, p);
    case RunOnce(m, opus) => TurnShrinks(r, r.items, m, opus);
    case Destroy(ssrc) => DestroyKeepsInvariant(r, ssrc);
    case SetUser(ssrc) =>
  }

  /** The router after any operations. */
  ghost function Reached(ops: seq<RouterOp>): (r: Router)
    ensures Invariant(r)
    decreases |ops|
  {
    if ops == [] then EMPTY else
      var r := Reached(ops[..|ops| - 1]);
      OpKeepsInvariant(r, ops[|ops| - 1]);
      Applied(r, ops[|ops| - 1])
  }

  /** Whatever happened before, once packets stop coming the loop empties every decoder down to what it
      must keep, and then sleeps; nobody with a packet to hand out is ever left unregistered. */
  lemma {:induction false} LoopAlwaysSettles(ops: seq<RouterOp>, maxConceal: nat, wantsOpus: bool)
    ensures var r := Reached(ops);
            && (forall id | 0 <= id < |r.decoders| && Releasable(r.decoders[id]) :: id in r.items)
            && Settled(r, maxConceal, wantsOpus).items == []
            && forall id | 0 <= id < |Settled(r, maxConceal, wantsOpus).decoders| ::
                 |Settled(r, maxConceal, wantsOpus).decoders[id].jitter.buf| <= 1
  {
    hide Steady;
    var r := Reached(ops);
    assert Invariant(r);
    SettledIsExhausted(r, maxConceal, wantsOpus);
    var s := Settled(r, maxConceal, wantsOpus);
    forall id | 0 <= id < |s.decoders|
      ensures |s.decoders[id].jitter.buf| <= DEFAULT.prefsize
    {
      assert !Releasable(s.decoders[id]);
    }
  }

  /** A decoder only ever holds packets of its own SSRC, so comparing them never raises. */
  lemma {:induction false} OneSsrcPerHeap(ops: seq<RouterOp>, id: nat)
    requires id < |Reached(ops).decoders|
    ensures forall p | p in Reached(ops).decoders[id].jitter.buf :: p.ssrc == Reached(ops).decoders[id].ssrc
  {
    assert Steady(Reached(ops).decoders[id]);
  }
}
