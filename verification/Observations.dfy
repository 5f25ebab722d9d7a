/** What the capture thread's keys, counters and rows mean: over whole flows and whole
    intervals, and without the functions that compute them. */
module Observations {
  import opened Options
  import opened Sums
  import opened Telemetry
  import opened FlagSightings
  import opened FlowAggregation
  import opened Batching
  import CaptureProtocol
  import DnsQuestion
  import opened EventSensor

  // ---- keys and intervals ----

  /** An instant lies in the interval that its bucket starts. */
  lemma BucketHolds(now: Instant, seconds: nat)
    requires seconds > 0
    ensures Bucket(now, seconds) * 1_000 <= now < (Bucket(now, seconds) + seconds) * 1_000
  {
    var s := now / 1_000;
    assert s == s / seconds * seconds + s % seconds;
  }

  lemma Distributes(m: int, k: int, scale: int)
    ensures (m + k) * scale == m * scale + k * scale
  {
  }

  lemma StrictlyScaled(m: int, n: int, scale: nat)
    requires m < n && scale > 0
    ensures m * scale < n * scale
  {
    Distributes(m, n - m, scale);
    assert (n - m) * scale > 0;
  }

  lemma ScaledOrder(m: int, n: int, scale: nat)
    requires scale > 0
    ensures (m < n <==> m * scale < n * scale) && (m == n <==> m * scale == n * scale)
  {
    if m < n {
      StrictlyScaled(m, n, scale);
    } else if n < m {
      StrictlyScaled(n, m, scale);
    }
  }

  /** Two instants share a bucket exactly if they fall into the same interval. */
  lemma SameBucketIff(a: Instant, b: Instant, seconds: nat)
    requires seconds > 0
    ensures Bucket(a, seconds) == Bucket(b, seconds) <==> a / 1_000 / seconds == b / 1_000 / seconds
    ensures Bucket(a, seconds) < Bucket(b, seconds) <==> a / 1_000 / seconds < b / 1_000 / seconds
  {
    ScaledOrder(a / 1_000 / seconds, b / 1_000 / seconds, seconds);
  }

  /** Packets belong to the same flow exactly if game, peer, remote end, port and protocol
      agree and they fall into the same five minutes. */
  lemma SameFlowIff(ctx: PeerContext, packet: Packet, now: Instant, ctx': PeerContext, packet': Packet, now': Instant)
    ensures KeyFor(ctx, packet, now) == KeyFor(ctx', packet', now') <==>
            && ctx.gameId == ctx'.gameId && ctx.peer.peerId == ctx'.peer.peerId
            && packet.remote == packet'.remote && packet.remotePort == packet'.remotePort
            && packet.protocol == packet'.protocol && now / 1_000 / 300 == now' / 1_000 / 300
    ensures var key := KeyFor(ctx, packet, now);
            && key.gameId == ctx.gameId && key.peerId == ctx.peer.peerId && key.remote == packet.remote
            && key.remotePort == packet.remotePort && key.protocol == packet.protocol
  {
    SameBucketIff(now, now', 300);
  }

  /** DNS queries are counted together exactly if game, peer and category agree and they
      fall into the same quarter of an hour. */
  lemma SameDnsIff(ctx: PeerContext, category: int, now: Instant, ctx': PeerContext, category': int, now': Instant)
    ensures DnsKeyFor(ctx, now, category) == DnsKeyFor(ctx', now', category') <==>
            && ctx.gameId == ctx'.gameId && ctx.peer.peerId == ctx'.peer.peerId && category == category'
            && now / 1_000 / 900 == now' / 1_000 / 900
  {
    SameBucketIff(now, now', 900);
  }

  /** A flow's row belongs to its game, its peer and its five minutes. */
  lemma SameSlotIff(ctx: PeerContext, packet: Packet, now: Instant, ctx': PeerContext, packet': Packet, now': Instant)
    ensures SlotOf(KeyFor(ctx, packet, now)) == SlotOf(KeyFor(ctx', packet', now')) <==>
            && ctx.gameId == ctx'.gameId && ctx.peer.peerId == ctx'.peer.peerId
            && now / 1_000 / 300 == now' / 1_000 / 300
  {
    SameBucketIff(now, now', 300);
  }

  /** A flush takes a flow, or a DNS count, exactly if its interval is over. */
  lemma TakenWhenOver(flows: map<FlowKey, FlowState>, dns: map<DnsKey, DnsState>, ctx: PeerContext, packet: Packet,
                      category: int, seen: Instant, now: Instant)
    ensures var key := KeyFor(ctx, packet, seen);
            key in Completed(flows, Bucket(now, FLOW_BUCKET_SECONDS)) <==>
            key in flows && seen / 1_000 / 300 < now / 1_000 / 300
    ensures var key := DnsKeyFor(ctx, seen, category);
            key in CompletedDns(dns, Bucket(now, DNS_BUCKET_SECONDS)) <==>
            key in dns && seen / 1_000 / 900 < now / 1_000 / 900
  {
    SameBucketIff(seen, now, 300);
    SameBucketIff(seen, now, 900);
  }

  // ---- what one packet is looked at for ----

  /** Only packets of peers that are watched for something are looked at; a new flow is
      turned away exactly if all 65,536 places are taken; only outbound packets to port 53
      of peers watched for DNS are read as queries, behind a length over TCP. */
  lemma LookedAtIff(ctx: PeerContext, packet: Packet, now: Instant, flows: map<FlowKey, FlowState>,
                    categoryOf: seq<Byte> -> Option<int>)
    ensures Watched(ctx) <==> ctx.behavior || ctx.flagScan || ctx.dns
    ensures Overflows(flows, ctx, packet, now) <==> KeyFor(ctx, packet, now) !in flows && |flows| >= 65_536
    ensures AskedCategory(ctx, packet, categoryOf).Some? ==> ctx.dns && packet.outbound && packet.remotePort == 53
    ensures ctx.dns && packet.outbound && packet.remotePort == 53 ==>
              var name := DnsQuestion.Question(packet.payload, packet.protocol == 6);
              AskedCategory(ctx, packet, categoryOf) == if name.Some? then categoryOf(name.value) else None
  {
  }

  /** A packet that is counted notes its remote end for its peer's interval if behaviour is
      watched, counts a query if it asks for a name of some category, and is remembered as
      scanned if flags are; one without a place changes nothing but one row of losses. */
  lemma PacketEffects(destinations: map<Slot, set<nat>>, dns: map<DnsKey, DnsState>,
                      scanned: map<FlowKey, seq<seq<Byte>>>, core: CaptureProtocol.Core, ctx: PeerContext,
                      packet: Packet, now: Instant, categoryOf: seq<Byte> -> Option<int>)
    ensures DestinationsAfter(destinations, ctx, packet, now) ==
            if !ctx.behavior then destinations
            else Noted(destinations, Slot(ctx.gameId, ctx.peer.peerId, Bucket(now, 300)), packet.remote)
    ensures var category := AskedCategory(ctx, packet, categoryOf);
            DnsAfter(dns, ctx, packet, now, categoryOf) ==
            if category.None? then dns
            else DnsCounted(dns, DnsKeyFor(ctx, now, category.value), ctx.peer, now)
    ensures var key, after := KeyFor(ctx, packet, now), ScannedAfter(scanned, ctx, packet, now);
            && after == scanned[key := after[key]]
            && (ctx.flagScan ==> after[key] == Before(scanned, key) + [packet.payload])
            && (!ctx.flagScan ==> after[key] == Before(scanned, key))
    ensures var after := Overflown(core, ctx, packet);
            && after.tracker == core.tracker
            && after.drops ==
               CaptureProtocol.RecordDrop(core.drops, ctx.gameId, 1, if |packet.payload| > U64_MAX then U64_MAX
                                                                     else |packet.payload|)
  {
    hide Noted, DnsCounted, CaptureProtocol.RecordDrop, Bucket;
  }

  // ---- many packets ----

  ghost function Remotes(packets: seq<nat>): set<nat> { set r | r in packets }

  /** The destinations after these remote ends were noted for a slot, one by one. */
  ghost function NotedAll(destinations: map<Slot, set<nat>>, slot: Slot, remotes: seq<nat>): map<Slot, set<nat>> {
    if remotes == [] then destinations
    else Noted(NotedAll(destinations, slot, remotes[..|remotes| - 1]), slot, remotes[|remotes| - 1])
  }

  /** The slot, which `before` does not have, holds these remote ends, as far as 1,024 of
      them; all other slots are as before. */
  ghost predicate HoldsRemotes(before: map<Slot, set<nat>>, slot: Slot, remotes: set<nat>,
                               after: map<Slot, set<nat>>) {
    && after.Keys == before.Keys + {slot} && (forall other :: other in before ==> after[other] == before[other])
    && after[slot] <= remotes && |after[slot]| == Min(1_024, |remotes|)
  }

  lemma NotedFirst(before: map<Slot, set<nat>>, slot: Slot, remote: nat)
    requires slot !in before
    ensures HoldsRemotes(before, slot, {remote}, Noted(before, slot, remote))
  {
    assert {} + {remote} == {remote};
  }

  lemma NotedNext(before: map<Slot, set<nat>>, slot: Slot, remotes: set<nat>, table: map<Slot, set<nat>>, remote: nat)
    requires slot !in before && HoldsRemotes(before, slot, remotes, table)
    ensures HoldsRemotes(before, slot, remotes + {remote}, Noted(table, slot, remote))
  {
    OneMoreRemote(table[slot], remotes, remote);
  }

  /** A slot's first packets leave the set of their distinct remote ends. */
  lemma {:induction false} NotedAllIs(destinations: map<Slot, set<nat>>, slot: Slot, remotes: seq<nat>)
    requires slot !in destinations && remotes != []
    ensures HoldsRemotes(destinations, slot, Remotes(remotes), NotedAll(destinations, slot, remotes))
  {
    hide HoldsRemotes, Noted, Remotes;
    var init, last := remotes[..|remotes| - 1], remotes[|remotes| - 1];
    assert remotes == init + [last];
    RemotesSnoc(init, last);
    if init == [] {
      NoRemotes();
      NotedFirst(destinations, slot, last);
      assert {} + {last} == {last};
    } else {
      NotedAllIs(destinations, slot, init);
      NotedNext(destinations, slot, Remotes(init), NotedAll(destinations, slot, init), last);
    }
  }

  lemma NoRemotes()
    ensures Remotes([]) == {}
  {
  }

  lemma RemotesSnoc(init: seq<nat>, last: nat)
    ensures Remotes(init + [last]) == Remotes(init) + {last}
  {
  }

  lemma OneMoreRemote(known: set<nat>, all: set<nat>, remote: nat)
    requires known <= all && |known| == Min(1_024, |all|)
    ensures var after := if |known| < 1_024 then known + {remote} else known;
            after <= all + {remote} && |after| == Min(1_024, |all + {remote}|)
  {
    if |known| < 1_024 {
      SubsetOfSameSize(known, all);
    } else if remote in all {
      assert all + {remote} == all;
    }
  }

  lemma SubsetOfSameSize(a: set<nat>, b: set<nat>)
    requires a <= b && |a| == |b|
    ensures a == b
  {
    assert b == a + (b - a);
  }

  /** The DNS table after queries for one key at these times. */
  ghost function DnsCountedAll(dns: map<DnsKey, DnsState>, key: DnsKey, peer: SensorPeer,
                               times: seq<Instant>): map<DnsKey, DnsState> {
    if times == [] then dns
    else DnsCounted(DnsCountedAll(dns, key, peer, times[..|times| - 1]), key, peer, times[|times| - 1])
  }

  /** A key's count is the number of its queries, cut at the counter's width, with the
      times of the first and of the last one; no other key changes. */
  lemma {:induction false} DnsCountedAllIs(dns: map<DnsKey, DnsState>, key: DnsKey, peer: SensorPeer,
                                           times: seq<Instant>)
    requires key !in dns && times != []
    ensures var after := DnsCountedAll(dns, key, peer, times);
            && after.Keys == dns.Keys + {key} && after - {key} == dns
            && after[key] == DnsState(peer, Min(|times|, I32_MAX), times[0], times[|times| - 1])
  {
    if |times| > 1 {
      DnsCountedAllIs(dns, key, peer, times[..|times| - 1]);
    } else {
      assert times[..0] == [];
    }
  }

  // ---- what a row says about the packets ----

  ghost function UpPackets(a: Arrival): nat { if a.packet.outbound then 1 else 0 }

  ghost function DownPackets(a: Arrival): nat { if a.packet.outbound then 0 else 1 }

  ghost function UpBytes(a: Arrival): nat { if a.packet.outbound then |a.packet.payload| else 0 }

  ghost function DownBytes(a: Arrival): nat { if a.packet.outbound then 0 else |a.packet.payload| }

  /** The flow is of the slot's game, peer and interval, was taken by this flush, and its
      peer's behaviour was watched when it began. */
  ghost predicate OfSlot(carried: map<FlowKey, seq<Arrival>>, taken: set<FlowKey>, slot: Slot, key: FlowKey) {
    && key in carried && key in taken && carried[key] != [] && carried[key][0].behavior
    && key.gameId == slot.gameId && key.peerId == slot.peerId && key.bucket == slot.bucket
  }

  /** What the packets of each of the slot's flows weigh. */
  ghost function Weighed(carried: map<FlowKey, seq<Arrival>>, taken: set<FlowKey>, slot: Slot,
                         weight: Arrival -> nat): map<FlowKey, nat> {
    map key | key in carried && OfSlot(carried, taken, slot, key) :: SumOf(weight, carried[key])
  }

  /** One for each of the slot's flows that began with a UDP packet or a SYN. */
  ghost function Opened(carried: map<FlowKey, seq<Arrival>>, taken: set<FlowKey>, slot: Slot): map<FlowKey, nat> {
    map key | key in carried && OfSlot(carried, taken, slot, key) ::
      if carried[key][0].packet.protocol == 17 || carried[key][0].packet.syn then 1 else 0
  }

  /** Whole seconds from a flow's first to its last packet, both included, at least one,
      also if the clock stepped back, and within the five minutes of an interval. */
  ghost function SecondsOf(packets: seq<Arrival>): int
    requires packets != []
  {
    var span := packets[|packets| - 1].at - packets[0].at;
    Max(1, Min(300, span / 1_000 + 1))
  }

  lemma {:induction false} SameWeight(f: Arrival -> nat, g: Arrival -> nat, packets: seq<Arrival>)
    requires forall a :: f(a) == g(a)
    ensures SumOf(f, packets) == SumOf(g, packets)
  {
    if packets != [] {
      SameWeight(f, g, packets[1..]);
    }
  }

  lemma SlotFlows(flows: map<FlowKey, FlowState>, carried: map<FlowKey, seq<Arrival>>, taken: set<FlowKey>, slot: Slot,
                  key: FlowKey)
    requires Carried(flows, carried)
    ensures Contributes(flows, taken, slot, key) <==> OfSlot(carried, taken, slot, key)
  {
    if key in flows {
      assert Grew(flows[key], carried[key]);
    }
  }

  lemma WeighsAs(flows: map<FlowKey, FlowState>, carried: map<FlowKey, seq<Arrival>>, taken: set<FlowKey>, slot: Slot,
                 row: FlowBucket, m: Meter, weight: Arrival -> nat)
    requires Carried(flows, carried) && AddsUp(flows, taken, slot, row) && Counted(m)
    requires forall a :: weight(a) == AddsTo(m)(a)
    ensures RowReading(row, m) == Min(Cap(m), Total(Weighed(carried, taken, slot, weight)))
  {
    hide SumOf, AddsUp, Contributes, OfSlot, Adds, Grew;
    RowsCountPackets(flows, carried, taken, slot, row, m);
    forall key | key in carried
      ensures Contributes(flows, taken, slot, key) <==> OfSlot(carried, taken, slot, key)
      ensures SumOf(AddsTo(m), carried[key]) == SumOf(weight, carried[key])
    {
      SlotFlows(flows, carried, taken, slot, key);
      SameWeight(AddsTo(m), weight, carried[key]);
    }
    assert Carriage(flows, carried, taken, slot, m) == Weighed(carried, taken, slot, weight);
  }

  /** Each packet and byte counter of a reported row is the sum over the raw packets of
      the slot's flows, cut at the counter's width. */
  lemma RowTotals(flows: map<FlowKey, FlowState>, carried: map<FlowKey, seq<Arrival>>, taken: set<FlowKey>, slot: Slot,
                  row: FlowBucket)
    requires Carried(flows, carried) && AddsUp(flows, taken, slot, row)
    ensures row.packetsUp == Min(I64_MAX, Total(Weighed(carried, taken, slot, UpPackets)))
    ensures row.packetsDown == Min(I64_MAX, Total(Weighed(carried, taken, slot, DownPackets)))
    ensures row.bytesUp == Min(I64_MAX, Total(Weighed(carried, taken, slot, UpBytes)))
    ensures row.bytesDown == Min(I64_MAX, Total(Weighed(carried, taken, slot, DownBytes)))
  {
    hide Carried, AddsUp, Weighed;
    WeighsAs(flows, carried, taken, slot, row, PacketsUp, UpPackets);
    WeighsAs(flows, carried, taken, slot, row, PacketsDown, DownPackets);
    WeighsAs(flows, carried, taken, slot, row, BytesUp, UpBytes);
    WeighsAs(flows, carried, taken, slot, row, BytesDown, DownBytes);
  }

  /** Its number of connections is that of the slot's flows that began with a UDP packet
      or a SYN. */
  lemma RowConnections(flows: map<FlowKey, FlowState>, carried: map<FlowKey, seq<Arrival>>, taken: set<FlowKey>,
                       slot: Slot, row: FlowBucket)
    requires Carried(flows, carried) && AddsUp(flows, taken, slot, row)
    ensures row.connectionCount == Min(I32_MAX, Total(Opened(carried, taken, slot)))
  {
    hide SumOf;
    assert RowReading(row, Connections) == Min(Cap(Connections), Total(Part(flows, taken, slot, Connections)));
    forall key | key in carried ensures Contributes(flows, taken, slot, key) <==> OfSlot(carried, taken, slot, key) {
      SlotFlows(flows, carried, taken, slot, key);
    }
    assert Part(flows, taken, slot, Connections) == Opened(carried, taken, slot);
  }

  lemma SpanIs(flow: FlowState, packets: seq<Arrival>)
    requires Grew(flow, packets)
    ensures ActiveSeconds(flow) == SecondsOf(packets)
  {
  }

  /** And its activity is that of the slot's longest flow. */
  lemma RowActivity(flows: map<FlowKey, FlowState>, carried: map<FlowKey, seq<Arrival>>, taken: set<FlowKey>,
                    slot: Slot, row: FlowBucket)
    requires Carried(flows, carried) && AddsUp(flows, taken, slot, row)
    ensures forall key :: OfSlot(carried, taken, slot, key) ==> SecondsOf(carried[key]) <= row.activeSeconds
    ensures exists key :: OfSlot(carried, taken, slot, key) && SecondsOf(carried[key]) == row.activeSeconds
  {
    hide RowReading, Part, SumOf, ActiveSeconds, SecondsOf;
    forall key | OfSlot(carried, taken, slot, key)
      ensures Contributes(flows, taken, slot, key) && ActiveSeconds(flows[key]) == SecondsOf(carried[key])
    {
      SlotFlows(flows, carried, taken, slot, key);
      SpanIs(flows[key], carried[key]);
    }
    var longest :| Contributes(flows, taken, slot, longest) && ActiveSeconds(flows[longest]) == row.activeSeconds;
    SlotFlows(flows, carried, taken, slot, longest);
    SpanIs(flows[longest], carried[longest]);
  }

  // ---- what a flush says about the tables ----

  ghost predicate Listed(batches: seq<TelemetryBatch>, key: DnsKey, i: nat, j: nat) {
    && i < |batches| && j < |batches[i].dnsProviders| && batches[i].gameId == key.gameId
    && batches[i].dnsProviders[j].peer.peerId == key.peerId && batches[i].dnsProviders[j].category == key.category
    && batches[i].dnsProviders[j].bucketStart == key.bucket
  }

  /** Each listed DNS row is the count of an interval that is over, with its peer, its
      number of queries and the times of the first and the last one; within a batch no
      two rows are about the same; and every such count is listed. */
  lemma DnsRowsTell(dns: map<DnsKey, DnsState>, cutoff: int, batches: seq<TelemetryBatch>)
    requires DnsFits(dns) && ReportsDns(dns, cutoff, batches)
    ensures forall i, j ::
              0 <= i < |batches| && 0 <= j < |batches[i].dnsProviders| ==>
                var row := batches[i].dnsProviders[j];
                var key := DnsKey(batches[i].gameId, row.peer.peerId, row.category, row.bucketStart);
                && key in dns && row.bucketStart < cutoff && row.peer == dns[key].peer
                && row.queryCount == dns[key].count
                && row.firstSeen == dns[key].first && row.lastSeen == dns[key].last
    ensures forall i, j, k ::
              0 <= i < |batches| && 0 <= j < k < |batches[i].dnsProviders| ==>
                var a, b := batches[i].dnsProviders[j], batches[i].dnsProviders[k];
                a.peer.peerId != b.peer.peerId || a.category != b.category || a.bucketStart != b.bucketStart
    ensures forall key :: key in dns && key.bucket < cutoff ==> exists i, j :: Listed(batches, key, i, j)
  {
    var rows := DnsRows(dns, cutoff);
    forall i | 0 <= i < |batches| ensures ListsDns(batches[i].dnsProviders, batches[i].gameId, rows) {
    }
    forall key | key in dns && key.bucket < cutoff ensures exists i, j :: Listed(batches, key, i, j) {
      assert key in rows;
      var i :| 0 <= i < |batches| && batches[i].gameId == key.gameId;
      assert ListsDns(batches[i].dnsProviders, batches[i].gameId, rows);
      var j :| 0 <= j < |batches[i].dnsProviders| && batches[i].dnsProviders[j] == rows[key];
      assert Listed(batches, key, i, j);
    }
  }

  /** Each listed flow row is about a slot with a behaviour flow whose interval is over,
      in its own game's batch, and counts the slot's distinct remote ends. */
  lemma FlowRowsTell(flows: map<FlowKey, FlowState>, carried: map<FlowKey, seq<Arrival>>,
                     destinations: map<Slot, set<nat>>, cutoff: int, batches: seq<TelemetryBatch>, i: nat, j: nat)
    requires Carried(flows, carried) && ReportsFlows(flows, destinations, cutoff, batches)
    requires i < |batches| && j < |batches[i].flows|
    ensures var row := batches[i].flows[j];
            var slot := Slot(batches[i].gameId, row.peer.peerId, row.bucketStart);
            && AddsUp(flows, Completed(flows, cutoff), slot, row)
            && (exists key :: OfSlot(carried, Completed(flows, cutoff), slot, key))
            && row.bucketStart < cutoff
            && row.distinctDestinations == if slot in destinations then |destinations[slot]| else 0
  {
    var row, done := batches[i].flows[j], Completed(flows, cutoff);
    var slot := Slot(batches[i].gameId, row.peer.peerId, row.bucketStart);
    assert RowIsRight(flows, destinations, done, slot, row);
    hide RowReading, Part, ActiveSeconds;
    var key :| Contributes(flows, done, slot, key) && flows[key].peer == row.peer;
    SlotFlows(flows, carried, done, slot, key);
  }
}
