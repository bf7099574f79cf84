/** From the wire to the router: packets of one source reach the router in the order in which they were sent. */
module EndToEnd {
  import opened Dave
  import opened Deferral
  import opened BucketFacts
  import Pipeline
  import opened Rollover
  import opened Turns
  import Unknown = UnknownRuns

  /** The packets that left the decryptor arrive at the unknown-SSRC queues in the same order. */
  ghost predicate Delivered(routed: seq<Pipeline.Routed>, arrivals: seq<Datagram>) {
    |arrivals| <= |routed| && forall i | 0 <= i < |arrivals| :: arrivals[i] == routed[i].packet
  }

  lemma {:induction false} RoutedIdAt(routed: seq<Pipeline.Routed>, i: nat)
    requires i < |routed|
    ensures |RoutedIds(routed)| == |routed| && RoutedIds(routed)[i] == routed[i].packet.id
  {
    if |routed| > 1 {
      RoutedIdAt(routed[1..], if i > 0 then i - 1 else 0);
    }
  }

  /** What is routed once is in one place. */
  lemma {:induction false} RoutedAtOnePlace(routed: seq<Pipeline.Routed>, i: nat, k: nat)
    requires i < |routed| && k < |routed| && routed[i].packet.id == routed[k].packet.id
    requires Pipeline.TimesRouted(routed, routed[i].packet.id) <= 1
    ensures i == k
    decreases |routed|
  {
    var id := routed[0].packet.id;
    if i > 0 && k > 0 {
      RoutedAtOnePlace(routed[1..], i - 1, k - 1);
    } else if i != k {
      RoutedThere(routed[1..], if i > 0 then i - 1 else k - 1);
    }
  }

  lemma {:induction false} RoutedThere(routed: seq<Pipeline.Routed>, i: nat)
    requires i < |routed|
    ensures Pipeline.TimesRouted(routed, routed[i].packet.id) >= 1
  {
    if i > 0 {
      RoutedThere(routed[1..], i - 1);
    }
  }

  /** Over every run of the decryptor and every run of the unknown-SSRC queues behind it in which nothing overtaken is
      fed later: of two packets of one source, the second of which came behind the first while that was waiting, the
      one sent first is fed to the router first. */
  lemma FedInSendOrder(idx: Index, conn: Connection, clock: real, steps: seq<Pipeline.Step>, m: nat,
                       a: nat, b: nat, later: seq<Unknown.Step>, i: nat, k: nat)
    requires Pipeline.ValidRun(Pipeline.Start(conn, clock), steps)
    requires NarrowRun(idx, Pipeline.Start(conn, clock), steps)
    requires Numbered(idx, Pipeline.After(Pipeline.Start(conn, clock), steps)) && idx(a) < idx(b) && m <= |steps|
    requires var w := Pipeline.After(Pipeline.Start(conn, clock), steps[..m]);
             a in AllIds(w.dec.buckets) && (b !in w.births || b in AllIds(w.dec.buckets))
    requires Follows(Pipeline.After(Pipeline.Start(conn, clock), steps), a, b)
    requires Unknown.ValidRun(Unknown.Start(clock), later)
    requires Delivered(Pipeline.After(Pipeline.Start(conn, clock), steps).routed,
                       Unknown.After(Unknown.Start(clock), later).arrivals)
    requires var fed := Unknown.After(Unknown.Start(clock), later).fed;
             && (forall p | p in Unknown.AllOvertaken(Unknown.Start(clock), later) :: p !in fed)
             && i < |fed| && k < |fed| && fed[i].packet.id == a && fed[k].packet.id == b
             && fed[i].packet.ssrc == fed[k].packet.ssrc
    ensures i < k
  {
    hide Pipeline.ValidRun, Pipeline.After, Unknown.ValidRun, Unknown.After, NarrowRun, Numbered, Follows, AllIds,
         Unknown.AllOvertaken, RoutedIds, Pipeline.TimesRouted;
    var w := Pipeline.After(Pipeline.Start(conn, clock), steps);
    var u := Unknown.After(Unknown.Start(clock), later);
    Unknown.OrderIsKeptExactly(clock, later);
    FedIsGenuine(clock, later);
    var p, q := u.fed[i], u.fed[k];
    assert p in u.fed && q in u.fed;
    RoutedIdAt(w.routed, q.serial);
    Pipeline.ExactlyOnce(conn, clock, steps, a);
    RoutedInOrder(idx, conn, clock, steps, m, a, b, q.serial);
    RoutedIsNotDropped(conn, clock, steps, p.serial);
    var ids := RoutedIds(w.routed);
    var j: nat :| j < q.serial && ids[j] == a;
    RoutedIdAt(w.routed, j);
    RoutedAtOnePlace(w.routed, j, p.serial);
  }

  lemma FedIsGenuine(clock: real, steps: seq<Unknown.Step>)
    requires Unknown.ValidRun(Unknown.Start(clock), steps)
    ensures var u := Unknown.After(Unknown.Start(clock), steps);
            forall p | p in u.fed :: p.serial < |u.arrivals| && u.arrivals[p.serial] == p.packet
  {
    hide Unknown.ValidRun, Unknown.After, Unknown.Accounted;
    Unknown.RunIsAccounted(clock, steps);
  }

  lemma RoutedIsNotDropped(conn: Connection, clock: real, steps: seq<Pipeline.Step>, n: nat)
    requires Pipeline.ValidRun(Pipeline.Start(conn, clock), steps)
    requires n < |Pipeline.After(Pipeline.Start(conn, clock), steps).routed|
    ensures var w := Pipeline.After(Pipeline.Start(conn, clock), steps);
            !FlagsOf(w.dec.ledger.flags, w.routed[n].packet.id).dropped
  {
    hide Pipeline.ValidRun, Pipeline.After, AllIds, Pipeline.TimesRouted;
    var w := Pipeline.After(Pipeline.Start(conn, clock), steps);
    Pipeline.ExactlyOnce(conn, clock, steps, w.routed[n].packet.id);
    RoutedThere(w.routed, n);
  }
}
