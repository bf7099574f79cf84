/** What the sink gets, over every history of the router (router.py, opus.py). */
module RouterHistory {
  import opened WakeUp
  import opened Heapq
  import opened PacketDecoding
  import opened Routing

  /** What the sink got of one SSRC, in order. */
  function Heard(written: seq<VoiceData>, ssrc: nat): seq<VoiceData> {
    if written == [] then [] else
      var n := |written| - 1;
      Heard(written[..n], ssrc) + if written[n].packet.ssrc == ssrc then [written[n]] else []
  }

  /** What a decoder emitted, in order, with what is done with the audio. */
  function Emissions(events: seq<Event>): seq<VoiceData> {
    if events == [] then [] else
      var n := |events| - 1;
      Emissions(events[..n])
      + match events[n]
        case Emitted(p, _, choice) => [VoiceData(p, choice)]
        case _ => []
  }

  function Pops(n: nat, wantsOpus: bool): seq<Call> {
    if n == 0 then [] else Pops(n - 1, wantsOpus) + [PopCall(wantsOpus)]
  }

  /** The calls made on the decoder that an SSRC has now: a push for each packet fed while the SSRC is not among the
      dropped ones, and in each turn of the loop as many pops as the waiter list held registrations. */
  ghost function Calls(ops: seq<RouterOp>, ssrc: nat): seq<Call>
    decreases |ops|
  {
    if ops == [] then [] else
      var n := |ops| - 1;
      var r, before := Reached(ops[..n]), Calls(ops[..n], ssrc);
      match ops[n]
      case Feed(p) => if p.ssrc == ssrc && ssrc !in r.dropped then before + [PushCall(p)] else before
      case RunOnce(_, opus) =>
        before + Pops(if ssrc in r.table then multiset(r.items)[r.table[ssrc]] else 0, opus)
      case Destroy(s) => if s == ssrc then [] else before
      case SetUser(_) => before
  }

  /** What the decoders that an SSRC had before emitted until they were destroyed. */
  ghost function Earlier(ops: seq<RouterOp>, ssrc: nat, maxConceal: nat): seq<VoiceData>
    decreases |ops|
  {
    if ops == [] then [] else
      var n := |ops| - 1;
      Earlier(ops[..n], ssrc, maxConceal)
      + if ops[n] == Destroy(ssrc) then Emissions(Run(ssrc, Calls(ops[..n], ssrc), maxConceal).1) else []
  }

  /** The limit on concealment is fixed. */
  ghost predicate SameLimit(ops: seq<RouterOp>, maxConceal: nat) {
    forall i | 0 <= i < |ops| && ops[i].RunOnce? :: ops[i].maxConceal == maxConceal
  }

  // ----- One visit -----

  /** The decoder of an SSRC is where its calls have led, and the sink got what its calls emitted. */
  ghost predicate Hears(r: Router, ssrc: nat, calls: seq<Call>, earlier: seq<VoiceData>, maxConceal: nat) {
    && (ssrc in r.table ==> r.table[ssrc] < |r.decoders| && r.decoders[r.table[ssrc]] == Run(ssrc, calls, maxConceal).0)
    && (ssrc !in r.table ==> calls == [])
    && Heard(r.written, ssrc) == earlier + Emissions(Run(ssrc, calls, maxConceal).1)
  }

  /** A decoder that is no longer in the table holds nothing. */
  ghost predicate Retired(r: Router) {
    forall id | 0 <= id < |r.decoders| ::
      r.decoders[id].jitter.buf == [] || (r.decoders[id].ssrc in r.table && r.table[r.decoders[id].ssrc] == id)
  }

  lemma HeardMore(written: seq<VoiceData>, v: VoiceData, ssrc: nat)
    ensures Heard(written + [v], ssrc) == Heard(written, ssrc) + if v.packet.ssrc == ssrc then [v] else []
  {
    assert (written + [v])[..|written|] == written;
  }

  lemma EmissionsMore(events: seq<Event>, e: Event)
    ensures Emissions(events + [e])
         == Emissions(events) + if e.Emitted? then [VoiceData(e.packet, e.choice)] else []
  {
    assert (events + [e])[..|events|] == events;
  }

  lemma RunMore(ssrc: nat, calls: seq<Call>, call: Call, maxConceal: nat)
    ensures var (d, events) := Run(ssrc, calls, maxConceal);
            var (d', e) := Step(d, call, maxConceal);
            Run(ssrc, calls + [call], maxConceal) == (d', events + [e])
  {
    hide Step;
    assert (calls + [call])[..|calls|] == calls;
  }

  /** A decoder emits packets of its SSRC only, and none while it holds nothing. */
  lemma EmitsItsOwn(d: Decoder, maxConceal: nat, wantsOpus: bool)
    requires Steady(d)
    ensures var (d', e) := PopData(d, maxConceal, wantsOpus);
            && d'.ssrc == d.ssrc && (e.Emitted? ==> e.packet.ssrc == d.ssrc)
            && (d.jitter.buf == [] ==> d' == d && !e.Emitted?)
  {
    hide Choose, Heapq.Pop;
  }

  lemma VisitEffect(r: Router, id: nat, maxConceal: nat, wantsOpus: bool)
    requires id < |r.decoders|
    ensures var s := Visited(r, id, maxConceal, wantsOpus);
            var (d, e) := PopData(r.decoders[id], maxConceal, wantsOpus);
            && s.table == r.table && s.decoders == r.decoders[id := d]
            && s.written == r.written + if e.Emitted? then [VoiceData(e.packet, e.choice)] else []
  {
    hide PopData, Flagged;
  }

  lemma VisitHears(r: Router, id: nat, ssrc: nat, calls: seq<Call>, earlier: seq<VoiceData>, maxConceal: nat,
                   wantsOpus: bool)
    requires Invariant(r) && Retired(r) && id < |r.decoders| && Hears(r, ssrc, calls, earlier, maxConceal)
    ensures var s := Visited(r, id, maxConceal, wantsOpus);
            && s.table == r.table && Retired(s)
            && Hears(s, ssrc, if ssrc in r.table && r.table[ssrc] == id then calls + [PopCall(wantsOpus)] else calls,
                     earlier, maxConceal)
  {
    hide Visited, PopData, Steady, Heard, Emissions, Run;
    var d := r.decoders[id];
    var (d', e) := PopData(d, maxConceal, wantsOpus);
    VisitEffect(r, id, maxConceal, wantsOpus);
    EmitsItsOwn(d, maxConceal, wantsOpus);
    assert r.written + [] == r.written;
    if e.Emitted? {
      HeardMore(r.written, VoiceData(e.packet, e.choice), ssrc);
    }
    RunMore(ssrc, calls, PopCall(wantsOpus), maxConceal);
    EmissionsMore(Run(ssrc, calls, maxConceal).1, e);
  }

  // ----- One turn, and one operation -----

  lemma PopsMore(n: nat, wantsOpus: bool)
    ensures [PopCall(wantsOpus)] + Pops(n, wantsOpus) == Pops(n + 1, wantsOpus)
  {
    if n > 0 {
      PopsMore(n - 1, wantsOpus);
    }
  }

  /** A turn over a copy of the waiter list pops each decoder as often as the copy names it. */
  lemma {:induction false} TurnHears(r: Router, snapshot: seq<nat>, ssrc: nat, calls: seq<Call>,
                                     earlier: seq<VoiceData>, maxConceal: nat, wantsOpus: bool)
    requires Invariant(r) && Retired(r) && multiset(snapshot) <= multiset(r.items)
    requires forall id | id in snapshot :: id < |r.decoders|
    requires Hears(r, ssrc, calls, earlier, maxConceal)
    ensures var s := Turn(r, snapshot, maxConceal, wantsOpus);
            var n := if ssrc in r.table then multiset(snapshot)[r.table[ssrc]] else 0;
            s.table == r.table && Retired(s) && Hears(s, ssrc, calls + Pops(n, wantsOpus), earlier, maxConceal)
    decreases |snapshot|
  {
    hide Visited, Hears, Retired, Invariant, Pops;
    if snapshot == [] {
      NoPops(wantsOpus);
      assert calls + [] == calls;
    } else {
      var id := snapshot[0];
      assert id in snapshot;
      var next := Visited(r, id, maxConceal, wantsOpus);
      VisitHears(r, id, ssrc, calls, earlier, maxConceal, wantsOpus);
      VisitKeepsInvariant(r, id, maxConceal, wantsOpus);
      VisitKeepsCount(r, id, maxConceal, wantsOpus);
      InvariantLinks(r);
      SnapshotStaysCovered(r, snapshot, maxConceal, wantsOpus);
      FirstCounts(snapshot);
      if ssrc in r.table && r.table[ssrc] == id {
        TurnHears(next, snapshot[1..], ssrc, calls + [PopCall(wantsOpus)], earlier, maxConceal, wantsOpus);
        PopThenMore(calls, multiset(snapshot[1..])[id], wantsOpus);
      } else {
        TurnHears(next, snapshot[1..], ssrc, calls, earlier, maxConceal, wantsOpus);
      }
    }
  }

  lemma NoPops(wantsOpus: bool)
    ensures Pops(0, wantsOpus) == []
  {
  }

  lemma FirstCounts(snapshot: seq<nat>)
    requires snapshot != []
    ensures forall x :: multiset(snapshot)[x] == multiset(snapshot[1..])[x] + if x == snapshot[0] then 1 else 0
    ensures forall x | x in snapshot[1..] :: x in snapshot
  {
    assert snapshot == [snapshot[0]] + snapshot[1..];
  }

  lemma PopThenMore(calls: seq<Call>, n: nat, wantsOpus: bool)
    ensures (calls + [PopCall(wantsOpus)]) + Pops(n, wantsOpus) == calls + Pops(n + 1, wantsOpus)
  {
    PopsMore(n, wantsOpus);
    assert (calls + [PopCall(wantsOpus)]) + Pops(n, wantsOpus) == calls + ([PopCall(wantsOpus)] + Pops(n, wantsOpus));
  }

  lemma VisitKeepsCount(r: Router, id: nat, maxConceal: nat, wantsOpus: bool)
    requires id < |r.decoders|
    ensures |Visited(r, id, maxConceal, wantsOpus).decoders| == |r.decoders|
  {
    hide PopData;
  }

  lemma FeedHears(r: Router, p: Packet, ssrc: nat, calls: seq<Call>, earlier: seq<VoiceData>, maxConceal: nat)
    requires Invariant(r) && Retired(r) && Hears(r, ssrc, calls, earlier, maxConceal)
    ensures var s := Fed(r, p);
            Retired(s)
            && Hears(s, ssrc, if p.ssrc == ssrc && ssrc !in r.dropped then calls + [PushCall(p)] else calls, earlier,
                     maxConceal)
  {
    hide PushPacket, Steady, Heard, Emissions, Run, Flagged;
    if p.ssrc !in r.dropped {
      var s := WithDecoder(r, p.ssrc);
      var id := s.table[p.ssrc];
      KeepsSsrc(s.decoders[id], p);
      PushEmitsNothing(s.decoders[id], p);
      RunMore(ssrc, calls, PushCall(p), maxConceal);
      EmissionsMore(Run(ssrc, calls, maxConceal).1, PushPacket(s.decoders[id], p).1);
      RunOfNothing(ssrc, maxConceal);
    }
  }

  lemma PushEmitsNothing(d: Decoder, p: Packet)
    ensures PushPacket(d, p).1.Received?
  {
  }

  lemma RunOfNothing(ssrc: nat, maxConceal: nat)
    ensures Run(ssrc, [], maxConceal) == (FreshDecoder(ssrc), []) && Emissions([]) == []
  {
  }

  lemma DestroyHears(r: Router, gone: nat, ssrc: nat, calls: seq<Call>, earlier: seq<VoiceData>, maxConceal: nat)
    requires Invariant(r) && Retired(r) && Hears(r, ssrc, calls, earlier, maxConceal)
    ensures var s := Destroyed(r, gone);
            Retired(s)
            && Hears(s, ssrc, if gone == ssrc then [] else calls,
                     if gone == ssrc then earlier + Emissions(Run(ssrc, calls, maxConceal).1) else earlier, maxConceal)
  {
    hide Steady, Heard, Run, Flagged, Remembered;
    RunOfNothing(ssrc, maxConceal);
  }

  /** Over every history of the router, destroyed decoders included: what the sink got of an SSRC is exactly what the
      calls on its decoders emitted, packet and choice, in order. */
  lemma {:induction false} SinkGetsExactlyWhatIsEmitted(ops: seq<RouterOp>, ssrc: nat, maxConceal: nat)
    requires SameLimit(ops, maxConceal)
    ensures Heard(Reached(ops).written, ssrc)
         == Earlier(ops, ssrc, maxConceal) + Emissions(Run(ssrc, Calls(ops, ssrc), maxConceal).1)
    ensures Hears(Reached(ops), ssrc, Calls(ops, ssrc), Earlier(ops, ssrc, maxConceal), maxConceal)
    ensures Retired(Reached(ops))
    decreases |ops|
  {
    hide Run, Emissions, Turn, Fed, Destroyed, Invariant;
    RunOfNothing(ssrc, maxConceal);
    if ops != [] {
      var n := |ops| - 1;
      var r := Reached(ops[..n]);
      var calls, earlier := Calls(ops[..n], ssrc), Earlier(ops[..n], ssrc, maxConceal);
      SinkGetsExactlyWhatIsEmitted(ops[..n], ssrc, maxConceal);
      assert earlier + [] == earlier;
      match ops[n]
      case Feed(p) => FeedHears(r, p, ssrc, calls, earlier, maxConceal);
      case RunOnce(m, opus) =>
        InvariantLinks(r);
        TurnHears(r, r.items, ssrc, calls, earlier, maxConceal, opus);
      case Destroy(gone) => DestroyHears(r, gone, ssrc, calls, earlier, maxConceal);
      case SetUser(_) =>
    }
  }

  // ----- Dropped SSRCs -----

  function Destroys(ops: seq<RouterOp>): nat {
    if ops == [] then 0 else Destroys(ops[..|ops| - 1]) + if ops[|ops| - 1].Destroy? then 1 else 0
  }

  /** `ssrc` is among the newest `n` dropped ones. */
  ghost predicate AmongNewest(dropped: seq<nat>, ssrc: nat, n: nat) {
    exists i :: 0 <= i < |dropped| && dropped[i] == ssrc && |dropped| - i <= n
  }

  lemma {:induction false} RemovingKeepsNewest(dropped: seq<nat>, other: nat, ssrc: nat, i: nat)
    requires other != ssrc && i < |dropped| && dropped[i] == ssrc
    ensures AmongNewest(RemoveFirst(dropped, other), ssrc, |dropped| - i)
  {
    var after := RemoveFirst(dropped, other);
    if dropped[0] == other {
      assert after[i - 1] == ssrc;
    } else if i == 0 {
      assert after[0] == ssrc;
      RemoveFirstShortens(dropped, other);
    } else {
      RemovingKeepsNewest(dropped[1..], other, ssrc, i - 1);
      var k :| 0 <= k < |RemoveFirst(dropped[1..], other)| && RemoveFirst(dropped[1..], other)[k] == ssrc
               && |RemoveFirst(dropped[1..], other)| - k <= |dropped| - i;
      assert after[k + 1] == ssrc;
    }
  }

  lemma {:induction false} RemoveFirstShortens(items: seq<nat>, x: nat)
    ensures |RemoveFirst(items, x)| <= |items|
  {
    if items != [] {
      RemoveFirstShortens(items[1..], x);
    }
  }

  lemma RememberingKeepsNewest(dropped: seq<nat>, other: nat, ssrc: nat, n: nat)
    requires AmongNewest(dropped, ssrc, n) && n < 16
    ensures AmongNewest(Remembered(dropped, other), ssrc, n + 1)
  {
    var i :| 0 <= i < |dropped| && dropped[i] == ssrc && |dropped| - i <= n;
    var after := Remembered(dropped, other);
    var k := i + |after| - |dropped| - 1;
    assert after[k] == ssrc;
  }

  lemma RememberedIsNewest(dropped: seq<nat>, ssrc: nat)
    ensures AmongNewest(Remembered(dropped, ssrc), ssrc, 1)
  {
    var after := Remembered(dropped, ssrc);
    assert after[|after| - 1] == ssrc;
  }

  lemma {:induction false} TurnKeepsTable(r: Router, snapshot: seq<nat>, maxConceal: nat, wantsOpus: bool)
    requires forall id | id in snapshot :: id < |r.decoders|
    ensures var s := Turn(r, snapshot, maxConceal, wantsOpus); s.table == r.table && s.dropped == r.dropped
    decreases |snapshot|
  {
    hide PopData, Flagged;
    if snapshot != [] {
      assert snapshot[0] in snapshot && forall id | id in snapshot[1..] :: id in snapshot;
      TurnKeepsTable(Visited(r, snapshot[0], maxConceal, wantsOpus), snapshot[1..], maxConceal, wantsOpus);
    }
  }

  /** How each operation changes the table and the dropped SSRCs. */
  lemma OpOnTable(r: Router, op: RouterOp)
    requires Linked(r)
    ensures Applied(r, op).dropped
         == match op
            case Destroy(ssrc) => if ssrc in r.table then Remembered(r.dropped, ssrc) else r.dropped
            case SetUser(ssrc) => RemoveFirst(r.dropped, ssrc)
            case _ => r.dropped
    ensures Applied(r, op).table.Keys
         == match op
            case Feed(p) => r.table.Keys + (if p.ssrc in r.dropped then {} else {p.ssrc})
            case Destroy(ssrc) => r.table.Keys - {ssrc}
            case _ => r.table.Keys
  {
    hide Turn, PushPacket, Flagged, Remembered;
    if op.RunOnce? {
      TurnKeepsTable(r, r.items, op.maxConceal, op.wantsOpus);
    }
  }

  /** Over every history: a destroyed SSRC stays dropped until its user is set again or 16 more are destroyed, so
      that whatever is fed for it is ignored. */
  lemma {:induction false} DestroyedStaysDropped(ops: seq<RouterOp>, m: nat, ssrc: nat)
    requires m < |ops| && ops[m] == Destroy(ssrc) && ssrc in Reached(ops[..m]).table
    requires forall i | m < i < |ops| :: ops[i] != SetUser(ssrc)
    requires Destroys(ops) - Destroys(ops[..m]) <= 16
    ensures Destroys(ops) > Destroys(ops[..m])
    ensures AmongNewest(Reached(ops).dropped, ssrc, Destroys(ops) - Destroys(ops[..m]))
    decreases |ops|
  {
    hide Applied, Invariant, Remembered, AmongNewest, RemoveFirst;
    var n := |ops| - 1;
    var r := Reached(ops[..n]);
    InvariantLinks(r);
    OpOnTable(r, ops[n]);
    if m == n {
      RememberedIsNewest(r.dropped, ssrc);
    } else {
      assert ops[..n][..m] == ops[..m];
      DestroyedStaysDropped(ops[..n], m, ssrc);
      var k := Destroys(ops[..n]) - Destroys(ops[..m]);
      NewestByPlace(r.dropped, ssrc, k);
      match ops[n]
      case Destroy(other) =>
        RememberingKeepsNewest(r.dropped, other, ssrc, k);
      case SetUser(other) =>
        var i := PlaceOf(r.dropped, ssrc, k);
        RemovingKeepsNewest(r.dropped, other, ssrc, i);
        NewerStill(RemoveFirst(r.dropped, other), ssrc, |r.dropped| - i, k);
      case _ =>
    }
  }

  lemma PlaceOf(dropped: seq<nat>, ssrc: nat, n: nat) returns (i: nat)
    requires AmongNewest(dropped, ssrc, n)
    ensures i < |dropped| && dropped[i] == ssrc && |dropped| - i <= n
  {
    i :| 0 <= i < |dropped| && dropped[i] == ssrc && |dropped| - i <= n;
  }

  lemma NewerStill(dropped: seq<nat>, ssrc: nat, n: nat, m: nat)
    requires AmongNewest(dropped, ssrc, n) && n <= m
    ensures AmongNewest(dropped, ssrc, m) && ssrc in dropped
  {
  }

  lemma NewestByPlace(dropped: seq<nat>, ssrc: nat, n: nat)
    requires AmongNewest(dropped, ssrc, n)
    ensures AmongNewest(dropped, ssrc, n + 1) && ssrc in dropped
  {
  }

  /** No SSRC is dropped twice, and none with a decoder is dropped. */
  ghost predicate Apart(r: Router) {
    && (forall i, k | 0 <= i < k < |r.dropped| :: r.dropped[i] != r.dropped[k])
    && (forall ssrc | ssrc in r.dropped :: ssrc !in r.table)
  }

  lemma {:induction false} RemoveFirstOfDistinct(items: seq<nat>, x: nat)
    requires forall i, k | 0 <= i < k < |items| :: items[i] != items[k]
    ensures var after := RemoveFirst(items, x);
            && (forall i, k | 0 <= i < k < |after| :: after[i] != after[k])
            && forall y :: y in after <==> y in items && y != x
  {
    if items != [] {
      RemoveFirstOfDistinct(items[1..], x);
      assert items == [items[0]] + items[1..];
      var rest := RemoveFirst(items[1..], x);
      forall k | 0 <= k < |rest|
        ensures rest[k] != items[0]
      {
        assert rest[k] in items[1..];
      }
    }
  }

  lemma RememberedOfDistinct(dropped: seq<nat>, ssrc: nat)
    requires ssrc !in dropped && forall i, k | 0 <= i < k < |dropped| :: dropped[i] != dropped[k]
    ensures var after := Remembered(dropped, ssrc);
            && (forall i, k | 0 <= i < k < |after| :: after[i] != after[k])
            && forall y | y in after :: y in dropped || y == ssrc
  {
  }

  lemma OpKeepsApart(r: Router, op: RouterOp)
    requires Linked(r) && Apart(r)
    ensures Apart(Applied(r, op))
  {
    hide Applied, Remembered;
    OpOnTable(r, op);
    match op
    case Destroy(ssrc) =>
      if ssrc in r.table {
        RememberedOfDistinct(r.dropped, ssrc);
      }
    case SetUser(ssrc) => RemoveFirstOfDistinct(r.dropped, ssrc);
    case _ =>
  }

  /** Over every history: what is dropped was destroyed, and its user has not been set since. */
  lemma {:induction false} DroppedWasDestroyed(ops: seq<RouterOp>, ssrc: nat)
    ensures Apart(Reached(ops))
    ensures ssrc in Reached(ops).dropped ==>
              exists m :: && 0 <= m < |ops| && ops[m] == Destroy(ssrc)
                          && forall i | m < i < |ops| :: ops[i] != SetUser(ssrc)
    decreases |ops|
  {
    hide Applied, Invariant, Remembered;
    if ops != [] {
      var n := |ops| - 1;
      var r := Reached(ops[..n]);
      InvariantLinks(r);
      DroppedWasDestroyed(ops[..n], ssrc);
      OpKeepsApart(r, ops[n]);
      OpOnTable(r, ops[n]);
      if ssrc in Reached(ops).dropped {
        if ops[n] == Destroy(ssrc) {
          assert ops[n] == Destroy(ssrc);
        } else {
          DroppedBefore(r, ops[n], ssrc);
          var m :| 0 <= m < n && ops[..n][m] == Destroy(ssrc)
                   && forall i | m < i < n :: ops[..n][i] != SetUser(ssrc);
          assert ops[m] == Destroy(ssrc);
          forall i | m < i < |ops|
            ensures ops[i] != SetUser(ssrc)
          {
            assert i < n ==> ops[..n][i] == ops[i];
          }
        }
      }
    }
  }

  lemma DroppedBefore(r: Router, op: RouterOp, ssrc: nat)
    requires Linked(r) && Apart(r) && op != Destroy(ssrc) && ssrc in Applied(r, op).dropped
    ensures ssrc in r.dropped && op != SetUser(ssrc)
  {
    hide Applied, Remembered;
    OpOnTable(r, op);
    match op
    case Destroy(other) =>
      if other in r.table {
        RememberedOfDistinct(r.dropped, other);
      }
    case SetUser(other) => RemoveFirstOfDistinct(r.dropped, other);
    case _ =>
  }
}
