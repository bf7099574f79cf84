/** Decoder and router as the objects they are (opus.py, router.py), proved against the functions of
    `PacketDecoding` and `Routing`. */
module RouterObjects {
  import opened Modular
  import opened Options
  import opened WakeUp
  import opened Heapq
  import opened JitterBuffer
  import opened PacketDecoding
  import opened Routing
  import opened RouterHistory

  const DEFAULT_MAX_CONCEAL_FRAMES: nat := 25

  class PacketDecoder {
    ghost const id: nat
    const ssrc: nat
    const maxConceal: nat
    const buffer: HeapJitterBuffer
    const waiter: MultiDataEvent<PacketDecoder>
    var lastSeq: int
    var lastTs: int

    ghost function View(): Decoder
      reads this, buffer
    {
      Decoder(ssrc, buffer.View(), lastSeq, lastTs)
    }

    constructor (ghost id: nat, ssrc: nat, waiter: MultiDataEvent<PacketDecoder>, configured: Option<int> := None)
      ensures View() == FreshDecoder(ssrc) && fresh(buffer) && buffer.cfg == DEFAULT
      ensures this.id == id && this.ssrc == ssrc && this.waiter == waiter
      ensures configured.None? ==> maxConceal == 25
      ensures configured.Some? ==> maxConceal == if configured.value < 0 then 0 else configured.value
    {
      this.id := id;
      this.ssrc := ssrc;
      this.waiter := waiter;
      var value := if configured.Some? then configured.value else DEFAULT_MAX_CONCEAL_FRAMES;
      maxConceal := if value < 0 then 0 else value;
      buffer := new HeapJitterBuffer();
      lastSeq := -1;
      lastTs := -1;
    }

    method FlagReadyState()
      requires waiter.Valid() && buffer.cfg == DEFAULT
      modifies waiter
      ensures waiter.Valid()
      ensures waiter.items == if Peeked(DEFAULT, buffer.View()).Some? then old(waiter.items) + [this]
                              else RemoveFirst(old(waiter.items), this)
    {
      var head := buffer.Peek();
      if head.Some? {
        waiter.Register(this);
      } else {
        waiter.Unregister(this);
      }
    }

    method PushPacket(packet: Packet)
      requires waiter.Valid() && buffer.cfg == DEFAULT
      modifies buffer, waiter
      ensures waiter.Valid()
      ensures View() == PacketDecoding.PushPacket(old(View()), packet).0
      ensures waiter.items == if Peeked(DEFAULT, View().jitter).Some? then old(waiter.items) + [this]
                              else RemoveFirst(old(waiter.items), this)
    {
      var accepted := buffer.Push(packet);
      FlagReadyState();
    }

    function MakeFakePacket(): Packet
      reads this
    {
      Packet(ssrc, AddWrapped(lastSeq, 1), AddWrapped(lastTs, SAMPLES_PER_FRAME, TIMESTAMP_WRAP), false, false, [])
    }

    method GetNextPacket() returns (packet: Option<Packet>)
      requires buffer.cfg == DEFAULT
      modifies buffer
      ensures var (j, p, jumped) := Next(old(View()), maxConceal);
              buffer.View() == j && packet == p
    {
      packet := buffer.Pop();
      if packet.None? {
        if buffer.buffer != [] {
          var gap := buffer.CurrentGap();
          if gap > maxConceal {
            buffer.ResyncToNext();
            return None;
          }
          if gap > 0 {
            buffer.Advance();
            return Some(MakeFakePacket());
          }
        }
        return None;
      } else if !packet.value.genuine {
        packet := Some(MakeFakePacket());
      }
    }

    /** What `_decode_packet` decides to do with a packet. */
    method DecodePacket(wantsOpus: bool, packet: Packet) returns (choice: Choice)
      ensures choice == Choose(buffer.View(), wantsOpus, packet)
    {
      hide LooksLikeDave;
      if wantsOpus {
        return NotDecoded;
      }
      if packet.genuine {
        if packet.needsInner {
          return InnerSkipped;
        }
        if LooksLikeDave(packet.payload) {
          return WrappedSkipped;
        }
        return Decode(packet.payload);
      }
      var next := buffer.PeekNext();
      if next.None? {
        return Plc;
      }
      if next.value.needsInner || LooksLikeDave(next.value.payload) {
        return FecSkipped;
      }
      choice := Fec(next.value);
    }

    method PopData(wantsOpus: bool) returns (data: Option<VoiceData>)
      requires waiter.Valid() && buffer.cfg == DEFAULT
      modifies this, buffer, waiter
      ensures waiter.Valid()
      ensures var (d, e) := PacketDecoding.PopData(old(View()), maxConceal, wantsOpus);
              View() == d && data == if e.Emitted? then Some(VoiceData(e.packet, e.choice)) else None
      ensures waiter.items == if Peeked(DEFAULT, View().jitter).Some? then old(waiter.items) + [this]
                              else RemoveFirst(old(waiter.items), this)
    {
      hide Popped, Choose;
      var packet := GetNextPacket();
      FlagReadyState();
      if packet.None? {
        return None;
      }
      var choice := DecodePacket(wantsOpus, packet.value);
      data := Some(VoiceData(packet.value, choice));
      lastSeq := packet.value.sequence;
      lastTs := packet.value.timestamp;
    }

    method Destroy()
      requires waiter.Valid() && buffer.cfg == DEFAULT
      modifies buffer, waiter
      ensures waiter.Valid()
      ensures View() == old(View()).(jitter := Fresh(DEFAULT))
      ensures waiter.items == if Peeked(DEFAULT, View().jitter).Some? then old(waiter.items) + [this]
                              else RemoveFirst(old(waiter.items), this)
    {
      buffer.Reset();
      FlagReadyState();
    }
  }

  ghost function Ids(ds: seq<PacketDecoder>): (r: seq<nat>)
    ensures |r| == |ds|
  {
    seq(|ds|, i requires 0 <= i < |ds| => ds[i].id)
  }

  /** Removing an object removes its number, when numbers identify objects. */
  lemma {:induction false} IdsRemoveFirst(ds: seq<PacketDecoder>, d: PacketDecoder)
    requires forall x | x in ds :: x.id == d.id ==> x == d
    ensures Ids(RemoveFirst(ds, d)) == RemoveFirst(Ids(ds), d.id)
  {
    if ds != [] {
      assert ds[0] in ds;
      assert Ids(ds) == [ds[0].id] + Ids(ds[1..]);
      if ds[0] == d {
      } else {
        IdsRemoveFirst(ds[1..], d);
        assert Ids([ds[0]] + RemoveFirst(ds[1..], d)) == [ds[0].id] + Ids(RemoveFirst(ds[1..], d));
      }
    }
  }

  /** Flagging a decoder acts on the numbers as it acts on the objects, and registers nobody else. */
  lemma IdsFlagged(items: seq<PacketDecoder>, d: PacketDecoder, state: Decoder)
    requires forall x | x in items :: x.id == d.id ==> x == d
    ensures var now := if Peeked(DEFAULT, state.jitter).Some? then items + [d] else RemoveFirst(items, d);
            && Ids(now) == Flagged(Ids(items), d.id, state)
            && forall x | x in now :: x == d || x in items
  {
    hide Peeked, RemoveFirst;
    IdsRemoveFirst(items, d);
    assert Ids(items + [d]) == Ids(items) + [d.id];
    RemoveFirstCounts(items, d);
    var fewer := RemoveFirst(items, d);
    forall x | x in fewer
      ensures x in items
    {
      assert x in multiset(fewer) && x in multiset(items);
    }
  }

  ghost predicate Owned(all: seq<PacketDecoder>, d: PacketDecoder) {
    d.id < |all| && all[d.id] == d
  }

  /** Numbers identify decoders, and no two share a buffer. */
  ghost predicate Shape(all: seq<PacketDecoder>, waiter: MultiDataEvent<PacketDecoder>) {
    && (forall k | 0 <= k < |all| ::
          && all[k].id == k && all[k].waiter == waiter
          && all[k].buffer.cfg == DEFAULT && all[k].maxConceal == DEFAULT_MAX_CONCEAL_FRAMES)
    && (forall i, k | 0 <= i < k < |all| :: all[i].buffer != all[k].buffer)
  }

  /** The dictionary of objects is the dictionary of numbers. */
  ghost predicate Tabled(decoders: map<nat, PacketDecoder>, all: seq<PacketDecoder>, table: map<nat, nat>) {
    && decoders.Keys == table.Keys
    && (forall ssrc | ssrc in decoders :: Owned(all, decoders[ssrc]) && decoders[ssrc].id == table[ssrc])
  }

  ghost predicate Listed(items: seq<PacketDecoder>, all: seq<PacketDecoder>, ids: seq<nat>) {
    (forall d | d in items :: Owned(all, d)) && Ids(items) == ids
  }

  lemma ListedAfterFlag(items: seq<PacketDecoder>, all: seq<PacketDecoder>, ids: seq<nat>,
                        d: PacketDecoder, state: Decoder)
    requires Listed(items, all, ids) && Owned(all, d)
    ensures Listed(if Peeked(DEFAULT, state.jitter).Some? then items + [d] else RemoveFirst(items, d),
                   all, Flagged(ids, d.id, state))
  {
    hide Peeked;
    IdsFlagged(items, d, state);
  }

  class PacketRouter {
    var decoders: map<nat, PacketDecoder>
    const waiter: MultiDataEvent<PacketDecoder>
    var droppedSsrcs: seq<nat>
    var written: seq<VoiceData>
    ghost var all: seq<PacketDecoder>  // every decoder ever made
    ghost var model: Router            // what the fields and the objects stand for
    ghost var history: seq<RouterOp>   // every operation so far

    ghost predicate Mirrors()
      reads this`all, this`model, all, set d | d in all :: d.buffer
    {
      && |all| == |model.decoders|
      && forall k | 0 <= k < |all| :: all[k].View() == model.decoders[k]
    }

    ghost predicate Valid()
      reads this`decoders, this`droppedSsrcs, this`written, this`all, this`model, waiter, all,
            set d | d in all :: d.buffer
    {
      && Shape(all, waiter)
      && Tabled(decoders, all, model.table) && droppedSsrcs == model.dropped && written == model.written
      && waiter.Valid() && Listed(waiter.items, all, model.items)
      && Mirrors() && Invariant(model)
    }

    /** The history led to the present state. */
    ghost predicate Recorded()
      reads this`model, this`history
    {
      model == Reached(history) && SameLimit(history, DEFAULT_MAX_CONCEAL_FRAMES)
    }

    constructor ()
      ensures Valid() && Recorded() && model == EMPTY && history == []
    {
      decoders := map[];
      waiter := new MultiDataEvent();
      droppedSsrcs := [];
      written := [];
      all := [];
      model := EMPTY;
      history := [];
    }

    /** One `pop_data` of the loop and the write it may cause. */
    method Visit(d: PacketDecoder, wantsOpus: bool)
      requires Valid() && Owned(all, d)
      modifies this`written, this`model, waiter, d, d.buffer
      ensures Valid()
      ensures model == Visited(old(model), d.id, DEFAULT_MAX_CONCEAL_FRAMES, wantsOpus)
    {
      hide PacketDecoding.PopData, Peeked, Invariant, Shape, Tabled, Listed;
      InvariantLinks(model);
      ShapeOf(all, waiter, d);
      ListedAfterFlag(waiter.items, all, model.items, d,
                      PacketDecoding.PopData(d.View(), d.maxConceal, wantsOpus).0);
      VisitKeepsInvariant(model, d.id, DEFAULT_MAX_CONCEAL_FRAMES, wantsOpus);
      var data := d.PopData(wantsOpus);
      model := Visited(model, d.id, DEFAULT_MAX_CONCEAL_FRAMES, wantsOpus);
      if data.Some? {
        written := written + [data.value];
      }
      MirrorsOthers(all, waiter, d);
      assert Mirrors();
    }

    /** One turn of the loop, over a copy of the wake-up list. */
    method RunOnce(wantsOpus: bool)
      requires Valid()
      modifies this`written, this`model, this`history, waiter, all, set d | d in all :: d.buffer
      ensures Valid()
      ensures Linked(old(model)) && model == Turn(old(model), old(model.items), DEFAULT_MAX_CONCEAL_FRAMES, wantsOpus)
      ensures history == old(history) + [Routing.RunOnce(DEFAULT_MAX_CONCEAL_FRAMES, wantsOpus)]
      ensures old(Recorded()) ==> Recorded()
    {
      hide Turn, Invariant, Shape, Tabled, Listed, Visited;
      var snapshot := waiter.items;
      ghost var ids := model.items;
      ghost var start := model;
      InvariantLinks(model);
      ListedLength(snapshot, all, ids);
      var i := 0;
      assert ids[0..] == ids;
      while i < |snapshot|
        modifies this`written, this`model, waiter, all, set d | d in all :: d.buffer
        invariant i <= |snapshot| == |ids|
        invariant Valid()
        invariant multiset(ids[i..]) <= multiset(model.items)
        invariant Linked(model)
        invariant forall id | id in ids[i..] :: id < |model.decoders|
        invariant Turn(model, ids[i..], DEFAULT_MAX_CONCEAL_FRAMES, wantsOpus)
               == Turn(start, ids, DEFAULT_MAX_CONCEAL_FRAMES, wantsOpus)
      {
        ListedAt(snapshot, all, ids, i);
        assert ids[i..][0] == ids[i] && ids[i..][1..] == ids[i + 1..] && ids[i] in ids[i..];
        SnapshotStaysCovered(model, ids[i..], DEFAULT_MAX_CONCEAL_FRAMES, wantsOpus);
        TurnUnfolds(model, ids[i..], wantsOpus);
        Visit(snapshot[i], wantsOpus);
        InvariantLinks(model);
        CoveredAreDecoders(model, ids[i + 1..]);
        i := i + 1;
      }
      assert ids[i..] == [];
      TurnUnfolds(model, [], wantsOpus);
      ReachedMore(history, Routing.RunOnce(DEFAULT_MAX_CONCEAL_FRAMES, wantsOpus), DEFAULT_MAX_CONCEAL_FRAMES);
      history := history + [Routing.RunOnce(DEFAULT_MAX_CONCEAL_FRAMES, wantsOpus)];
    }

    /** The loop while no packets come in: it ends, asleep, with nothing left to hand out. */
    method RunUntilIdle(wantsOpus: bool)
      requires Valid()
      modifies this`written, this`model, this`history, waiter, all, set d | d in all :: d.buffer
      ensures Valid() && waiter.items == [] && !waiter.ready
      ensures old(Recorded()) ==> Recorded()
      ensures model == Settled(old(model), DEFAULT_MAX_CONCEAL_FRAMES, wantsOpus)
    {
      hide Turn, Invariant, Shape, Tabled;
      while waiter.items != []
        invariant Valid() && (old(Recorded()) ==> Recorded())
        invariant Settled(model, DEFAULT_MAX_CONCEAL_FRAMES, wantsOpus)
               == Settled(old(model), DEFAULT_MAX_CONCEAL_FRAMES, wantsOpus)
        decreases Buffered(model.decoders), Gaps(model.decoders), |model.items|
      {
        TurnShrinks(model, model.items, DEFAULT_MAX_CONCEAL_FRAMES, wantsOpus);
        RunOnce(wantsOpus);
      }
    }

    method GetDecoder(ssrc: nat) returns (d: PacketDecoder)
      requires Valid()
      modifies this`decoders, this`all, this`model
      ensures Valid()
      ensures model == WithDecoder(old(model), ssrc)
      ensures ssrc in model.table && Owned(all, d) && d.id == model.table[ssrc]
      ensures forall x | x in all :: x in old(all) || (fresh(x) && fresh(x.buffer))
    {
      hide Invariant, Shape, Tabled, Listed;
      DecoderAdded(model, ssrc);
      InvariantLinks(model);
      TabledKeys(decoders, all, model.table);
      if ssrc in decoders {
        TabledAt(decoders, all, model.table, ssrc);
        d := decoders[ssrc];
      } else {
        d := new PacketDecoder(|all|, ssrc, waiter);
        ghost var before := all;
        ShapeGrows(before, waiter, d);
        ListedGrows(waiter.items, before, model.items, d);
        TabledGrows(decoders, before, model.table, ssrc, d);
        all := all + [d];
        decoders := decoders[ssrc := d];
        model := WithDecoder(model, ssrc);
        assert Mirrors();
      }
    }

    /** No other decoder is touched. */
    method PushTo(d: PacketDecoder, packet: Packet, ghost next: Router)
      requires Shape(all, waiter) && waiter.Valid() && Owned(all, d) && Mirrors()
      requires next.decoders == model.decoders[d.id := PacketDecoding.PushPacket(d.View(), packet).0]
      modifies this`model, waiter, d.buffer
      ensures waiter.Valid() && Mirrors() && model == next
      ensures d.View() == PacketDecoding.PushPacket(old(d.View()), packet).0
      ensures waiter.items == if Peeked(DEFAULT, d.View().jitter).Some? then old(waiter.items) + [d]
                              else RemoveFirst(old(waiter.items), d)
    {
      hide PacketDecoding.PushPacket, Peeked, RemoveFirst;
      MirrorsOthers(all, waiter, d);
      d.PushPacket(packet);
      model := next;
    }

    method FeedRtp(packet: Packet)
      requires Valid()
      modifies this, waiter, all, set d | d in all :: d.buffer
      ensures Valid()
      ensures Linked(old(model)) && model == Fed(old(model), packet)
      ensures history == old(history) + [Feed(packet)] && (old(Recorded()) ==> Recorded())
    {
      hide Applied, Fed, Invariant, Shape, Tabled, Listed, Reached;
      ReachedMore(history, Feed(packet), DEFAULT_MAX_CONCEAL_FRAMES);
      FeedDecoder(packet);
      history := history + [Feed(packet)];
    }

    method FeedDecoder(packet: Packet)
      requires Valid()
      modifies this`decoders, this`all, this`model, waiter, all, set d | d in all :: d.buffer
      ensures Valid()
      ensures Linked(old(model)) && model == Fed(old(model), packet)
    {
      hide Invariant, PacketDecoding.PushPacket, Peeked, Shape, Tabled, Listed, RemoveFirst, Fed, With;
      InvariantLinks(model);
      FeedKeepsInvariant(model, packet);
      if packet.ssrc in droppedSsrcs {
        DroppedIsIgnored(model, packet);
        return;
      }
      FedEffect(model, packet);
      ghost var next := Fed(model, packet);
      var d := GetDecoder(packet.ssrc);
      InvariantLinks(model);
      ShapeOf(all, waiter, d);
      ListedAfterFlag(waiter.items, all, model.items, d, PacketDecoding.PushPacket(d.View(), packet).0);
      PushTo(d, packet, next);
      assert Tabled(decoders, all, model.table);
      assert Listed(waiter.items, all, model.items);
    }

    method DestroyDecoder(ssrc: nat)
      requires Valid()
      modifies this`decoders, this`droppedSsrcs, this`model, this`history, waiter, set d | d in all :: d.buffer
      ensures Valid()
      ensures Linked(old(model)) && model == Destroyed(old(model), ssrc)
      ensures history == old(history) + [RouterOp.Destroy(ssrc)] && (old(Recorded()) ==> Recorded())
    {
      hide Applied, Destroyed, Invariant, Shape, Tabled, Listed, Reached;
      ReachedMore(history, RouterOp.Destroy(ssrc), DEFAULT_MAX_CONCEAL_FRAMES);
      ForgetDecoder(ssrc);
      history := history + [RouterOp.Destroy(ssrc)];
    }

    method ForgetDecoder(ssrc: nat)
      requires Valid()
      modifies this`decoders, this`droppedSsrcs, this`model, waiter, set d | d in all :: d.buffer
      ensures Valid()
      ensures Linked(old(model)) && model == Destroyed(old(model), ssrc)
    {
      hide Invariant, Peeked, Shape, Tabled, Listed, RemoveFirst, Destroyed, With, Fresh, Remembered;
      InvariantLinks(model);
      DestroyKeepsInvariant(model, ssrc);
      DestroyedEffect(model, ssrc);
      ghost var next := Destroyed(model, ssrc);
      TabledKeys(decoders, all, model.table);
      if ssrc in decoders {
        var d := decoders[ssrc];
        TabledAt(decoders, all, model.table, ssrc);
        TabledShrinks(decoders, all, model.table, ssrc);
        decoders := decoders - {ssrc};
        droppedSsrcs := Remembered(droppedSsrcs, ssrc);
        ShapeOf(all, waiter, d);
        ListedAfterFlag(waiter.items, all, model.items, d, d.View().(jitter := Fresh(DEFAULT)));
        d.Destroy();
        MirrorsOthers(all, waiter, d);
        model := next;
        forall k | 0 <= k < |all|
          ensures all[k].View() == model.decoders[k]
        {
          assert k != d.id ==> all[k] != d && all[k].buffer != d.buffer;
        }
        assert Mirrors();
        assert Tabled(decoders, all, model.table);
        assert Listed(waiter.items, all, model.items);
      }
    }

    /** `set_user_id`, as far as routing goes: the SSRC is heard again. */
    method SetUserId(ssrc: nat)
      requires Valid()
      modifies this`droppedSsrcs, this`model, this`history
      ensures Valid()
      ensures model == Readmitted(old(model), ssrc)
      ensures history == old(history) + [SetUser(ssrc)] && (old(Recorded()) ==> Recorded())
    {
      hide Applied, Readmitted, Invariant, Shape, Tabled, Listed, Reached;
      ReachedMore(history, SetUser(ssrc), DEFAULT_MAX_CONCEAL_FRAMES);
      Readmit(ssrc);
      history := history + [SetUser(ssrc)];
    }

    method Readmit(ssrc: nat)
      requires Valid()
      modifies this`droppedSsrcs, this`model
      ensures Valid()
      ensures model == Readmitted(old(model), ssrc)
    {
      hide Invariant, Shape, Tabled, Listed, RemoveFirst, Reached;
      ReadmittedKeepsInvariant(model, ssrc);
      if ssrc in droppedSsrcs {
        droppedSsrcs := RemoveFirst(droppedSsrcs, ssrc);
      } else {
        RemoveAbsent(droppedSsrcs, ssrc);
      }
      model := model.(dropped := droppedSsrcs);
      assert Mirrors();
    }

    /** At any point: what the sink got of an SSRC is what the calls on its decoders emitted, in order. */
    lemma SinkGot(ssrc: nat)
      requires Valid() && Recorded()
      ensures Heard(written, ssrc)
           == Earlier(history, ssrc, DEFAULT_MAX_CONCEAL_FRAMES)
              + Emissions(PacketDecoding.Run(ssrc, Calls(history, ssrc), DEFAULT_MAX_CONCEAL_FRAMES).1)
    {
      SinkGetsExactlyWhatIsEmitted(history, ssrc, DEFAULT_MAX_CONCEAL_FRAMES);
    }
  }

  lemma ReadmittedKeepsInvariant(r: Router, ssrc: nat)
    requires Invariant(r)
    ensures Invariant(Readmitted(r, ssrc))
  {
    OpKeepsInvariant(r, SetUser(ssrc));
  }

  lemma ReachedMore(history: seq<RouterOp>, op: RouterOp, maxConceal: nat)
    ensures Linked(Reached(history)) && Reached(history + [op]) == Applied(Reached(history), op)
    ensures op.Feed? ==> Reached(history + [op]) == Fed(Reached(history), op.packet)
    ensures op.SetUser? ==> Reached(history + [op]) == Readmitted(Reached(history), op.ssrc)
    ensures op.Destroy? ==> Reached(history + [op]) == Destroyed(Reached(history), op.ssrc)
    ensures SameLimit(history, maxConceal) && (op.RunOnce? ==> op.maxConceal == maxConceal) ==>
              SameLimit(history + [op], maxConceal)
  {
    hide Invariant, Fed, Destroyed, Turn;
    InvariantLinks(Reached(history));
    assert (history + [op])[..|history|] == history;
  }

  lemma DroppedIsIgnored(r: Router, p: Packet)
    requires Linked(r) && p.ssrc in r.dropped
    ensures Fed(r, p) == r
  {
  }

  /** What feeding and destroying change, field by field. */
  lemma FedEffect(r: Router, p: Packet)
    requires Linked(r) && p.ssrc !in r.dropped
    ensures var s, t := WithDecoder(r, p.ssrc), Fed(r, p);
            && t.table == s.table && t.dropped == s.dropped && t.written == s.written
            && p.ssrc in s.table && s.table[p.ssrc] < |s.decoders|
            && var id := s.table[p.ssrc];
               var d := PacketDecoding.PushPacket(s.decoders[id], p).0;
               t.decoders == s.decoders[id := d] && t.items == Flagged(s.items, id, d)
  {
    hide PacketDecoding.PushPacket, Flagged, FreshDecoder;
  }

  lemma DestroyedEffect(r: Router, ssrc: nat)
    requires Linked(r)
    ensures ssrc !in r.table ==> Destroyed(r, ssrc) == r
    ensures ssrc in r.table ==>
              var t, id := Destroyed(r, ssrc), r.table[ssrc];
              var d := r.decoders[id].(jitter := Fresh(DEFAULT));
              && t.table == r.table - {ssrc} && t.written == r.written && t.dropped == Remembered(r.dropped, ssrc)
              && t.decoders == r.decoders[id := d] && t.items == Flagged(r.items, id, d)
  {
    hide Flagged, Fresh, Remembered;
  }

  lemma {:induction false} RemoveAbsent(items: seq<nat>, x: nat)
    requires x !in items
    ensures RemoveFirst(items, x) == items
  {
    if items != [] {
      assert items == [items[0]] + items[1..];
      RemoveAbsent(items[1..], x);
    }
  }

  lemma TurnUnfolds(r: Router, ids: seq<nat>, wantsOpus: bool)
    requires forall id | id in ids :: id < |r.decoders|
    ensures ids == [] ==> Turn(r, ids, DEFAULT_MAX_CONCEAL_FRAMES, wantsOpus) == r
    ensures ids != [] ==> ids[0] in ids && (forall id | id in ids[1..] :: id in ids)
    ensures ids != [] ==> (
        var next := Visited(r, ids[0], DEFAULT_MAX_CONCEAL_FRAMES, wantsOpus);
        Turn(r, ids, DEFAULT_MAX_CONCEAL_FRAMES, wantsOpus)
        == Turn(next, ids[1..], DEFAULT_MAX_CONCEAL_FRAMES, wantsOpus))
  {
    hide Visited;
    if ids != [] {
      assert ids[0] in ids;
    }
  }

  lemma TabledKeys(decoders: map<nat, PacketDecoder>, all: seq<PacketDecoder>, table: map<nat, nat>)
    requires Tabled(decoders, all, table)
    ensures forall ssrc :: ssrc in decoders <==> ssrc in table
  {
    assert forall ssrc :: ssrc in decoders <==> ssrc in decoders.Keys;
    assert forall ssrc :: ssrc in table <==> ssrc in table.Keys;
  }

  lemma TabledAt(decoders: map<nat, PacketDecoder>, all: seq<PacketDecoder>, table: map<nat, nat>, ssrc: nat)
    requires Tabled(decoders, all, table) && ssrc in decoders && ssrc in table
    ensures Owned(all, decoders[ssrc]) && decoders[ssrc].id == table[ssrc]
  {
  }

  lemma TabledGrows(decoders: map<nat, PacketDecoder>, all: seq<PacketDecoder>, table: map<nat, nat>,
                    ssrc: nat, d: PacketDecoder)
    requires Tabled(decoders, all, table) && d.id == |all|
    ensures Tabled(decoders[ssrc := d], all + [d], table[ssrc := |all|])
  {
  }

  lemma TabledShrinks(decoders: map<nat, PacketDecoder>, all: seq<PacketDecoder>, table: map<nat, nat>, ssrc: nat)
    requires Tabled(decoders, all, table)
    ensures Tabled(decoders - {ssrc}, all, table - {ssrc})
  {
  }

  lemma ListedLength(items: seq<PacketDecoder>, all: seq<PacketDecoder>, ids: seq<nat>)
    requires Listed(items, all, ids)
    ensures |items| == |ids|
  {
  }

  lemma ListedAt(items: seq<PacketDecoder>, all: seq<PacketDecoder>, ids: seq<nat>, i: nat)
    requires Listed(items, all, ids) && i < |items|
    ensures |ids| == |items| && Owned(all, items[i]) && items[i].id == ids[i]
  {
    assert items[i] in items;
  }

  lemma ShapeGrows(all: seq<PacketDecoder>, waiter: MultiDataEvent<PacketDecoder>, d: PacketDecoder)
    requires Shape(all, waiter)
    requires d.id == |all| && d.waiter == waiter
    requires d.buffer.cfg == DEFAULT && d.maxConceal == DEFAULT_MAX_CONCEAL_FRAMES
    requires forall x | x in all :: x.buffer != d.buffer
    ensures Shape(all + [d], waiter)
  {
  }

  lemma ListedGrows(items: seq<PacketDecoder>, all: seq<PacketDecoder>, ids: seq<nat>, d: PacketDecoder)
    requires Listed(items, all, ids)
    ensures Listed(items, all + [d], ids)
  {
  }

  lemma ShapeOf(all: seq<PacketDecoder>, waiter: MultiDataEvent<PacketDecoder>, d: PacketDecoder)
    requires Shape(all, waiter) && Owned(all, d)
    ensures d.waiter == waiter && d.buffer.cfg == DEFAULT && d.maxConceal == DEFAULT_MAX_CONCEAL_FRAMES
  {
  }

  /** Every other decoder is another object with another buffer. */
  lemma MirrorsOthers(all: seq<PacketDecoder>, waiter: MultiDataEvent<PacketDecoder>, d: PacketDecoder)
    requires Shape(all, waiter) && Owned(all, d)
    ensures forall k | 0 <= k < |all| && k != d.id :: all[k] != d && all[k].buffer != d.buffer
  {
  }
}
