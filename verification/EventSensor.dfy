/** The capture thread: counting packets, collecting batches and sending them. */
module EventSensor {
  import opened Options
  import opened Sums
  import opened Telemetry
  import opened LossCounters
  import opened FlagDedup
  import opened FlagSightings
  import opened CaptureProtocol
  import opened CaptureAccounting
  import opened FlowAggregation
  import opened Batching
  import opened FlowTail
  import opened DnsQuestion

  function KeyFor(ctx: PeerContext, packet: Packet, now: Instant): FlowKey {
    FlowKey(ctx.gameId, ctx.peer.peerId, packet.remote, packet.remotePort, packet.protocol,
            Bucket(now, FLOW_BUCKET_SECONDS))
  }

  function NewFlow(ctx: PeerContext, packet: Packet, now: Instant): FlowState {
    FlowState(ctx.peer, ctx.behavior, 0, 0, 0, 0, if packet.protocol == 17 || packet.syn then 1 else 0, now, now, [])
  }

  /** What one packet adds to a counter of its flow. */
  function Adds(packet: Packet, m: Meter): nat {
    match m
    case PacketsUp => if packet.outbound then 1 else 0
    case PacketsDown => if packet.outbound then 0 else 1
    case BytesUp => if packet.outbound then |packet.payload| else 0
    case BytesDown => if packet.outbound then 0 else |packet.payload|
    case Connections => 0
  }

  /** The flow after a packet: counters up by what the packet adds, the rest as it was. */
  ghost predicate Counts(before: FlowState, packet: Packet, now: Instant, after: FlowState) {
    && (forall m :: Reading(before, m) <= Cap(m) ==>
          Reading(after, m) == Min(Cap(m), Reading(before, m) + Adds(packet, m)))
    && after.peer == before.peer && after.emitBehavior == before.emitBehavior
    && after.firstSeen == before.firstSeen && after.lastSeen == now && after.tail == before.tail
  }

  function Completed(flows: map<FlowKey, FlowState>, cutoff: int): set<FlowKey> {
    set key | key in flows && key.bucket < cutoff
  }

  function CompletedDns(dns: map<DnsKey, DnsState>, cutoff: int): set<DnsKey> {
    set key | key in dns && key.bucket < cutoff
  }

  function DnsRow(key: DnsKey, state: DnsState): DnsBucket {
    DnsBucket(state.peer, key.category, key.bucket, state.count, state.first, state.last)
  }

  ghost function DnsRows(dns: map<DnsKey, DnsState>, cutoff: int): map<DnsKey, DnsBucket> {
    map key | key in dns && key.bucket < cutoff :: DnsRow(key, dns[key])
  }

  /** Destinations of slots that have no completed behaviour flow. */
  ghost function Unreported(destinations: map<Slot, set<nat>>, flows: map<FlowKey, FlowState>,
                            cutoff: int): map<Slot, set<nat>> {
    map slot | slot in destinations && !Reported(flows, Completed(flows, cutoff), slot) :: destinations[slot]
  }

  /** Rows with the number of distinct destinations of their slot. */
  ghost function Finished(rows: map<Slot, FlowBucket>, destinations: map<Slot, set<nat>>): map<Slot, FlowBucket> {
    map slot | slot in rows ::
      rows[slot].(distinctDestinations := if slot in destinations then |destinations[slot]| else 0)
  }

  /** The batches report the completed behaviour flows: every slot that has any is
      in its game's batch, no slot is there twice, and every row is the sum of its
      slot's flows. */
  ghost predicate ReportsFlows(flows: map<FlowKey, FlowState>, destinations: map<Slot, set<nat>>, cutoff: int,
                               batches: seq<TelemetryBatch>) {
    var done := Completed(flows, cutoff);
    && (forall slot :: Reported(flows, done, slot) ==>
          exists i, j ::
            0 <= i < |batches| && 0 <= j < |batches[i].flows|
            && RowSlot(batches[i].gameId, batches[i].flows[j]) == slot)
    && (forall i, j :: 0 <= i < |batches| && 0 <= j < |batches[i].flows| ==>
          RowIsRight(flows, destinations, done, RowSlot(batches[i].gameId, batches[i].flows[j]), batches[i].flows[j]))
    && (forall i, j, k :: 0 <= i < |batches| && 0 <= j < k < |batches[i].flows| ==>
          RowSlot(batches[i].gameId, batches[i].flows[j]) != RowSlot(batches[i].gameId, batches[i].flows[k]))
  }

  ghost predicate RowIsRight(flows: map<FlowKey, FlowState>, destinations: map<Slot, set<nat>>, done: set<FlowKey>,
                             slot: Slot, row: FlowBucket) {
    && AddsUp(flows, done, slot, row)
    && row.distinctDestinations == if slot in destinations then |destinations[slot]| else 0
  }

  ghost predicate ReportsDns(dns: map<DnsKey, DnsState>, cutoff: int, batches: seq<TelemetryBatch>) {
    var rows := DnsRows(dns, cutoff);
    && (forall i :: 0 <= i < |batches| ==> ListsDns(batches[i].dnsProviders, batches[i].gameId, rows))
    && (forall key :: key in rows ==> HasBatch(batches, key.gameId))
  }

  lemma UnreportedIs(destinations: map<Slot, set<nat>>, flows: map<FlowKey, FlowState>, cutoff: int,
                     rows: map<Slot, FlowBucket>)
    requires Aggregated(flows, Completed(flows, cutoff), rows)
    ensures destinations - rows.Keys == Unreported(destinations, flows, cutoff)
  {}

  lemma CompletedIsFlow(flows: map<FlowKey, FlowState>, cutoff: int, key: FlowKey)
    requires key in Completed(flows, cutoff)
    ensures key in flows
  {}

  lemma KnownPeer(flows: map<FlowKey, FlowState>, key: FlowKey)
    requires FlowsFit(flows) && key in flows
    ensures flows[key].peer.peerId == key.peerId
  {}

  lemma NothingAggregated(flows: map<FlowKey, FlowState>)
    ensures Aggregated(flows, {}, map[])
  {}

  lemma NothingBuilt()
    ensures Built(map[], Done(map[], map[], [], map[]))
  {}

  lemma KeepsSlot(before: FlowBucket, after: FlowBucket, slot: Slot)
    requires RowSlot(slot.gameId, before) == slot && after.peer == before.peer
    requires after.bucketStart == before.bucketStart
    ensures RowSlot(slot.gameId, after) == slot
  {}

  lemma RowsKeepSlots(flows: map<FlowKey, FlowState>, done: set<FlowKey>, rows: map<Slot, FlowBucket>)
    requires Aggregated(flows, done, rows)
    ensures forall slot :: slot in rows ==> RowSlot(slot.gameId, rows[slot]) == slot
  {}

  ghost predicate FlowsFit(flows: map<FlowKey, FlowState>) {
    && |flows| <= MAX_TRACKED_FLOWS
    && forall key :: key in flows ==>
         flows[key].peer.peerId == key.peerId && forall m :: Reading(flows[key], m) <= Cap(m)
  }

  /** A packet, when it arrived, and whether its peer's behaviour was watched then. */
  datatype Arrival = Arrival(packet: Packet, at: Instant, behavior: bool)

  ghost function AddsTo(m: Meter): Arrival -> nat { (a: Arrival) => Adds(a.packet, m) }

  /** What a flow keeps of its first packet, and when it saw its last one. */
  ghost predicate Grew(flow: FlowState, packets: seq<Arrival>) {
    && packets != [] && flow.firstSeen == packets[0].at && flow.lastSeen == packets[|packets| - 1].at
    && flow.emitBehavior == packets[0].behavior
    && flow.connectionCount == if packets[0].packet.protocol == 17 || packets[0].packet.syn then 1 else 0
  }

  /** Counters that packets add to: all but the number of connections. */
  predicate Counted(m: Meter) { !m.Connections? }

  /** Every flow's counters are the sums over the packets it carried, cut at the
      counter's width. */
  ghost predicate Carried(flows: map<FlowKey, FlowState>, carried: map<FlowKey, seq<Arrival>>) {
    && flows.Keys == carried.Keys
    && (forall key, m :: key in flows && Counted(m) ==>
          Reading(flows[key], m) == Min(Cap(m), SumOf(AddsTo(m), carried[key])))
    && forall key :: key in flows ==> Grew(flows[key], carried[key])
  }

  /** Every flow's tail is the end of what it has carried while it was scanned. */
  ghost predicate TailsFit(flows: map<FlowKey, FlowState>, scanned: map<FlowKey, seq<seq<Byte>>>) {
    flows.Keys == scanned.Keys && forall key :: key in flows ==> flows[key].tail == Last(Stream(scanned[key]))
  }

  ghost predicate DestinationsFit(destinations: map<Slot, set<nat>>) {
    forall slot :: slot in destinations ==> |destinations[slot]| <= MAX_DESTINATIONS_PER_BUCKET
  }

  ghost predicate DnsFits(dns: map<DnsKey, DnsState>) {
    forall key :: key in dns ==> dns[key].peer.peerId == key.peerId && dns[key].count <= I32_MAX
  }

  lemma SubmapSize<K, V>(m: map<K, V>, gone: set<K>)
    ensures |m - gone| <= |m|
  {
    assert (m - gone).Keys == m.Keys - gone;
    assert m.Keys == (m.Keys - gone) + (m.Keys * gone);
  }

  lemma FewerFlowsFit(flows: map<FlowKey, FlowState>, carried: map<FlowKey, seq<Arrival>>, gone: set<FlowKey>)
    requires FlowsFit(flows) && Carried(flows, carried)
    ensures Without(flows, gone) == flows - gone
    ensures FlowsFit(Without(flows, gone)) && Carried(Without(flows, gone), Without(carried, gone))
  {
    SubmapSize(flows, gone);
  }

  lemma FewerTailsFit(flows: map<FlowKey, FlowState>, scanned: map<FlowKey, seq<seq<Byte>>>, gone: set<FlowKey>)
    requires TailsFit(flows, scanned)
    ensures TailsFit(Without(flows, gone), Without(scanned, gone))
  {}

  lemma FewerFit(destinations: map<Slot, set<nat>>, slots: set<Slot>, dns: map<DnsKey, DnsState>, keys: set<DnsKey>)
    ensures DestinationsFit(destinations) ==> DestinationsFit(destinations - slots)
    ensures DnsFits(dns) ==> DnsFits(dns - keys)
  {}

  lemma HeldGame(batches: Batches, done: Done, gameId: int)
    requires Built(batches, done) && gameId in batches
    ensures batches[gameId].gameId == gameId
  {
    hide ListsFlows, ListsDns, FlagsOf;
    assert Holds(batches[gameId], gameId, done);
  }

  /** `HashMap::into_values`: the batches in any order. */
  method IntoValues(batches: Batches, ghost done: Done) returns (listed: seq<TelemetryBatch>)
    requires Built(batches, done)
    ensures Values(batches, listed, batches.Keys)
  {
    hide Values, Visiting, Holds;
    listed := [];
    var todo := batches.Keys;
    ghost var games: set<int> := {};
    NoValues(batches);
    VisitStart(batches.Keys);
    while todo != {}
      invariant Visiting(todo, games, batches.Keys)
      invariant Values(batches, listed, games)
      decreases |todo|
    {
      var gameId := Next(todo);
      VisitStep(todo, games, batches.Keys, gameId);
      HeldGame(batches, done, gameId);
      ValuesStep(batches, listed, games, gameId);
      listed := listed + [batches[gameId]];
      todo, games := todo - {gameId}, games + {gameId};
    }
    VisitEnd(games, batches.Keys);
  }

  lemma NoValues(batches: Batches)
    ensures Values(batches, [], {})
  {}

  lemma BuiltReports(flows: map<FlowKey, FlowState>, destinations: map<Slot, set<nat>>, cutoff: int,
                     rows: map<Slot, FlowBucket>, batches: Batches, done: Done, listed: seq<TelemetryBatch>)
    requires Aggregated(flows, Completed(flows, cutoff), rows) && done.rows == Finished(rows, destinations)
    requires Built(batches, done) && Values(batches, listed, batches.Keys)
    ensures ReportsFlows(flows, destinations, cutoff, listed)
  {
    hide FlagsOf, ListsDns, OnePerGame, Completed, AddsUp, Reported;
    var completed := Completed(flows, cutoff);
    forall i | 0 <= i < |listed| ensures ListsFlows(listed[i].flows, listed[i].gameId, done.rows) {
      assert Holds(batches[listed[i].gameId], listed[i].gameId, done);
    }
    forall slot | Reported(flows, completed, slot)
      ensures exists i, j ::
                0 <= i < |listed| && 0 <= j < |listed[i].flows|
                && RowSlot(listed[i].gameId, listed[i].flows[j]) == slot
    {
      assert slot in done.rows && !Absent(slot.gameId, done);
      assert HasBatch(listed, slot.gameId);
      var i :| 0 <= i < |listed| && listed[i].gameId == slot.gameId;
      var j :| 0 <= j < |listed[i].flows| && listed[i].flows[j] == done.rows[slot];
      FinishedSlot(flows, completed, rows, destinations, slot);
    }
    forall i, j | 0 <= i < |listed| && 0 <= j < |listed[i].flows|
      ensures RowIsRight(flows, destinations, completed, RowSlot(listed[i].gameId, listed[i].flows[j]),
                         listed[i].flows[j])
    {
      FinishedSlot(flows, completed, rows, destinations, RowSlot(listed[i].gameId, listed[i].flows[j]));
    }
  }

  lemma FinishedSlot(flows: map<FlowKey, FlowState>, completed: set<FlowKey>, rows: map<Slot, FlowBucket>,
                     destinations: map<Slot, set<nat>>, slot: Slot)
    requires Aggregated(flows, completed, rows) && slot in rows
    ensures RowSlot(slot.gameId, Finished(rows, destinations)[slot]) == slot
    ensures RowIsRight(flows, destinations, completed, slot, Finished(rows, destinations)[slot])
  {
    var row, finished := rows[slot], Finished(rows, destinations)[slot];
    assert forall m :: RowReading(finished, m) == RowReading(row, m);
  }

  lemma BuiltReportsDns(dns: map<DnsKey, DnsState>, cutoff: int, batches: Batches, done: Done,
                        listed: seq<TelemetryBatch>)
    requires done.dns == DnsRows(dns, cutoff) && Built(batches, done) && Values(batches, listed, batches.Keys)
    ensures ReportsDns(dns, cutoff, listed)
  {
    hide FlagsOf, ListsDns, ListsFlows, OnePerGame;
    forall i | 0 <= i < |listed| ensures ListsDns(listed[i].dnsProviders, listed[i].gameId, done.dns) {
      assert Holds(batches[listed[i].gameId], listed[i].gameId, done);
    }
    forall key | key in done.dns ensures HasBatch(listed, key.gameId) {
      assert !Absent(key.gameId, done);
    }
  }

  /** The packet would start a flow that the full table has no room for. */
  predicate Overflows(flows: map<FlowKey, FlowState>, ctx: PeerContext, packet: Packet, now: Instant) {
    KeyFor(ctx, packet, now) !in flows && |flows| >= MAX_TRACKED_FLOWS
  }

  function SaturatingMulU64(a: nat, b: nat): nat { Min(a * b, U64_MAX) }

  /** The packet is counted in its flow, which is new or goes on, and in no other. */
  ghost predicate CountsPacket(flows: map<FlowKey, FlowState>, carried: map<FlowKey, seq<Arrival>>,
                               flows': map<FlowKey, FlowState>, carried': map<FlowKey, seq<Arrival>>,
                               ctx: PeerContext, packet: Packet, now: Instant) {
    var key := KeyFor(ctx, packet, now);
    var before := if key in flows then flows[key] else NewFlow(ctx, packet, now);
    && key in flows' && flows' == flows[key := flows'[key]]
    && Counts(before, packet, now, flows'[key].(tail := before.tail))
    && carried' == carried[key := (if key in carried then carried[key] else []) + [Arrival(packet, now, ctx.behavior)]]
  }

  /** The hits were told, and those that found no place are one recorded loss: as many
      rows, and for each of them the bytes of the payload. */
  ghost predicate ReportsPacket(before: Core, ctx: PeerContext, packet: Packet, now: Instant, found: seq<Match>,
                                after: Core) {
    exists dropped: nat ::
      && Reports(before.tracker, ctx, packet, now, found, after.tracker, dropped)
      && after.drops ==
         if dropped == 0 then before.drops
         else CaptureProtocol.RecordDrop(before.drops, ctx.gameId, Min(dropped, U64_MAX),
                                         Min(Min(|packet.payload|, U64_MAX) * Min(dropped, U64_MAX), U64_MAX))
  }

  function Noted(destinations: map<Slot, set<nat>>, slot: Slot, remote: nat): map<Slot, set<nat>> {
    var known := if slot in destinations then destinations[slot] else {};
    destinations[slot := if |known| < MAX_DESTINATIONS_PER_BUCKET then known + {remote} else known]
  }

  function DnsCounted(dns: map<DnsKey, DnsState>, key: DnsKey, peer: SensorPeer, now: Instant): map<DnsKey, DnsState> {
    var known := if key in dns then dns[key] else DnsState(peer, 0, now, now);
    dns[key := known.(count := Min(known.count + 1, I32_MAX), last := now)]
  }

  /** The category of the name that a packet asks a name server for, if it has one. */
  ghost function AskedCategory(ctx: PeerContext, packet: Packet, categoryOf: seq<Byte> -> Option<int>): Option<int> {
    var name := Question(packet.payload, packet.protocol == 6);
    if ctx.dns && packet.outbound && packet.remotePort == 53 && name.Some? then categoryOf(name.value) else None
  }

  /** The destinations after a packet. */
  ghost function DestinationsAfter(destinations: map<Slot, set<nat>>, ctx: PeerContext, packet: Packet,
                                   now: Instant): map<Slot, set<nat>> {
    if ctx.behavior then Noted(destinations, SlotOf(KeyFor(ctx, packet, now)), packet.remote) else destinations
  }

  /** A packet for which the full table has no room is one lost row. */
  ghost function Overflown(core: Core, ctx: PeerContext, packet: Packet): Core {
    core.(drops := RecordDrop(core.drops, ctx.gameId, 1, Min(|packet.payload|, U64_MAX)))
  }

  /** The DNS table after a packet. */
  ghost function DnsAfter(dns: map<DnsKey, DnsState>, ctx: PeerContext, packet: Packet, now: Instant,
                          categoryOf: seq<Byte> -> Option<int>): map<DnsKey, DnsState> {
    var category := AskedCategory(ctx, packet, categoryOf);
    if category.Some? then DnsCounted(dns, DnsKeyFor(ctx, now, category.value), ctx.peer, now) else dns
  }

  function DnsKeyFor(ctx: PeerContext, now: Instant, category: int): DnsKey {
    DnsKey(ctx.gameId, ctx.peer.peerId, category, Bucket(now, DNS_BUCKET_SECONDS))
  }

  /** The peer's game wants to know something about it. */
  predicate Watched(ctx: PeerContext) { ctx.behavior || ctx.flagScan || ctx.dns }

  lemma KnownFlow(flows: map<FlowKey, FlowState>, carried: map<FlowKey, seq<Arrival>>, key: FlowKey, before: FlowState,
                  packets: seq<Arrival>, ctx: PeerContext, packet: Packet, now: Instant)
    requires FlowsFit(flows) && Carried(flows, carried) && key == KeyFor(ctx, packet, now)
    requires before == if key in flows then flows[key] else NewFlow(ctx, packet, now)
    requires packets == if key in carried then carried[key] else []
    ensures before.peer.peerId == key.peerId && forall m :: Reading(before, m) <= Cap(m)
    ensures forall m :: Counted(m) ==> Reading(before, m) == Min(Cap(m), SumOf(AddsTo(m), packets))
    ensures Grows(before, packets, Arrival(packet, now, ctx.behavior))
  {}

  /** The flow can take one more packet, as its first or as a later one. */
  ghost predicate Grows(before: FlowState, packets: seq<Arrival>, next: Arrival) {
    if packets == [] then Grew(before, [next]) else Grew(before, packets)
  }

  /** The packet and its length are added to the counters of its direction, each stopping
      at the largest signed word; the flow was last seen now and is otherwise as it was. */
  ghost predicate AddsPacket(before: FlowState, packet: Packet, now: Instant, after: FlowState) {
    if packet.outbound
    then
      && after.packetsUp == Min(before.packetsUp + 1, I64_MAX)
      && after.bytesUp == Min(before.bytesUp + Min(|packet.payload|, I64_MAX), I64_MAX)
      && after == before.(packetsUp := after.packetsUp, bytesUp := after.bytesUp, lastSeen := now)
    else
      && after.packetsDown == Min(before.packetsDown + 1, I64_MAX)
      && after.bytesDown == Min(before.bytesDown + Min(|packet.payload|, I64_MAX), I64_MAX)
      && after == before.(packetsDown := after.packetsDown, bytesDown := after.bytesDown, lastSeen := now)
  }

  lemma AddsPacketCounts(before: FlowState, packet: Packet, now: Instant, after: FlowState)
    requires AddsPacket(before, packet, now, after)
    ensures Counts(before, packet, now, after)
  {
    forall m | Reading(before, m) <= Cap(m)
      ensures Reading(after, m) == Min(Cap(m), Reading(before, m) + Adds(packet, m))
    {
      match m
      case PacketsUp =>
      case PacketsDown =>
      case BytesUp =>
      case BytesDown =>
      case Connections =>
    }
  }

  method AddPacket(before: FlowState, packet: Packet, now: Instant) returns (flow: FlowState)
    ensures AddsPacket(before, packet, now, flow)
  {
    flow := before.(lastSeen := now);
    if packet.outbound {
      flow := flow.(packetsUp := SaturatingAdd(flow.packetsUp, 1, PacketsUp));
      flow := flow.(bytesUp := SaturatingAdd(flow.bytesUp, Min(|packet.payload|, I64_MAX), BytesUp));
    } else {
      flow := flow.(packetsDown := SaturatingAdd(flow.packetsDown, 1, PacketsDown));
      flow := flow.(bytesDown := SaturatingAdd(flow.bytesDown, Min(|packet.payload|, I64_MAX), BytesDown));
    }
  }

  // ---- rows and packets ----

  /** What each of a slot's flows carried, for one counter. */
  ghost function Carriage(flows: map<FlowKey, FlowState>, carried: map<FlowKey, seq<Arrival>>, done: set<FlowKey>,
                          slot: Slot, m: Meter): map<FlowKey, nat>
    requires flows.Keys == carried.Keys
  {
    map key | key in flows && Contributes(flows, done, slot, key) :: SumOf(AddsTo(m), carried[key])
  }

  /** Cutting each summand at the cap does not change a sum that is cut there anyway. */
  lemma {:induction false} CappedTotal<K>(cut: map<K, nat>, whole: map<K, nat>, cap: nat)
    requires cut.Keys == whole.Keys && forall k :: k in cut ==> cut[k] == Min(cap, whole[k])
    ensures Min(cap, Total(cut)) == Min(cap, Total(whole))
    decreases |cut|
  {
    if cut == map[] {
      assert whole == map[];
    } else {
      var k :| k in cut;
      TotalSplit(cut, k);
      TotalSplit(whole, k);
      CappedTotal(cut - {k}, whole - {k}, cap);
    }
  }

  /** Two roundings away, a reported row still counts raw packets: each of its
      packet and byte counters is the sum over every packet that any of the slot's
      flows carried, cut at the counter's width. */
  lemma RowsCountPackets(flows: map<FlowKey, FlowState>, carried: map<FlowKey, seq<Arrival>>, done: set<FlowKey>,
                         slot: Slot, row: FlowBucket, m: Meter)
    requires Carried(flows, carried) && AddsUp(flows, done, slot, row) && Counted(m)
    ensures RowReading(row, m) == Min(Cap(m), Total(Carriage(flows, carried, done, slot, m)))
  {
    CappedTotal(Part(flows, done, slot, m), Carriage(flows, carried, done, slot, m), Cap(m));
  }

  method TrimBatch(batch: TelemetryBatch) returns (kept: TelemetryBatch, trimmed: nat)
    ensures kept == Trim(batch) && trimmed == Min(PayloadRows(batch) - PayloadRows(kept), U64_MAX)
  {
    var original := |batch.flows| + |batch.dnsProviders| + |batch.peerNetworks| + |batch.flagTransports|;
    var remaining := MAX_INGEST_ROWS;
    kept := batch.(flows := Truncate(batch.flows, remaining));
    remaining := Max(remaining - |kept.flows|, 0);
    kept := kept.(dnsProviders := Truncate(kept.dnsProviders, remaining));
    remaining := Max(remaining - |kept.dnsProviders|, 0);
    kept := kept.(peerNetworks := Truncate(kept.peerNetworks, remaining));
    remaining := Max(remaining - |kept.peerNetworks|, 0);
    kept := kept.(flagTransports := Truncate(kept.flagTransports, remaining));
    var keptRows := |kept.flows| + |kept.dnsProviders| + |kept.peerNetworks| + |kept.flagTransports|;
    trimmed := Min(Max(original - keptRows, 0), U64_MAX);
  }

  lemma DestinationCount(destinations: set<nat>, remote: nat)
    requires |destinations| < MAX_DESTINATIONS_PER_BUCKET
    ensures |destinations + {remote}| <= MAX_DESTINATIONS_PER_BUCKET
  {}

  lemma GrowsOn(before: FlowState, packets: seq<Arrival>, next: Arrival, after: FlowState)
    requires Counts(before, next.packet, next.at, after) && Grows(before, packets, next)
    requires Reading(before, Connections) <= Cap(Connections)
    ensures Grew(after, packets + [next])
  {
    assert Reading(after, Connections) == Reading(before, Connections);
  }

  lemma CountKeepsFit(flows: map<FlowKey, FlowState>, key: FlowKey, before: FlowState, packet: Packet, now: Instant,
                      after: FlowState)
    requires FlowsFit(flows) && (key in flows || |flows| < MAX_TRACKED_FLOWS)
    requires Counts(before, packet, now, after) && before.peer.peerId == key.peerId
    requires forall m :: Reading(before, m) <= Cap(m)
    ensures FlowsFit(flows[key := after])
  {
    assert flows[key := after].Keys == flows.Keys + {key};
  }

  lemma CountKeepsSum(before: FlowState, packets: seq<Arrival>, next: Arrival, after: FlowState, m: Meter)
    requires Counts(before, next.packet, next.at, after) && Reading(before, m) <= Cap(m)
    requires Reading(before, m) == Min(Cap(m), SumOf(AddsTo(m), packets))
    ensures Reading(after, m) == Min(Cap(m), SumOf(AddsTo(m), packets + [next]))
  {
    hide SumOf, Reading, Cap;
    SumOfAppend(AddsTo(m), packets, [next]);
    SumOfOne(AddsTo(m), next);
  }

  /** A tracked flow after one more packet. */
  lemma CountKeepsTable(flows: map<FlowKey, FlowState>, carried: map<FlowKey, seq<Arrival>>, key: FlowKey,
                        before: FlowState, packets: seq<Arrival>, next: Arrival, after: FlowState)
    requires FlowsFit(flows) && Carried(flows, carried) && (key in flows || |flows| < MAX_TRACKED_FLOWS)
    requires Counts(before, next.packet, next.at, after) && Grows(before, packets, next)
    requires before.peer.peerId == key.peerId
    requires forall m :: Reading(before, m) <= Cap(m)
    requires forall m :: Counted(m) ==> Reading(before, m) == Min(Cap(m), SumOf(AddsTo(m), packets))
    ensures FlowsFit(flows[key := after]) && Carried(flows[key := after], carried[key := packets + [next]])
  {
    hide SumOf, Grew, Grows, Counts, Reading, FlowsFit, Adds, Cap;
    CountKeepsFit(flows, key, before, next.packet, next.at, after);
    GrowsOn(before, packets, next, after);
    forall m | Counted(m) ensures Reading(after, m) == Min(Cap(m), SumOf(AddsTo(m), packets + [next])) {
      CountKeepsSum(before, packets, next, after, m);
    }
    assert flows[key := after].Keys == carried[key := packets + [next]].Keys;
  }

  /** What a flow carried before this packet while it was scanned. */
  ghost function Before(scanned: map<FlowKey, seq<seq<Byte>>>, key: FlowKey): seq<seq<Byte>> {
    if key in scanned then scanned[key] else []
  }

  /** What the flows carried once a packet is scanned, if its game scans for flags. */
  ghost function ScannedAfter(scanned: map<FlowKey, seq<seq<Byte>>>, ctx: PeerContext, packet: Packet,
                              now: Instant): map<FlowKey, seq<seq<Byte>>> {
    var key := KeyFor(ctx, packet, now);
    scanned[key := Before(scanned, key) + if ctx.flagScan then [packet.payload] else []]
  }

  /** Without hits nothing is told. */
  lemma NothingReported(core: Core, ctx: PeerContext, packet: Packet, now: Instant)
    ensures ReportsPacket(core, ctx, packet, now, [], core)
  {
    NothingToTell(core.tracker, ctx, packet, now);
  }

  lemma SameTail(before: FlowState, packet: Packet, now: Instant, after: FlowState)
    requires Counts(before, packet, now, after)
    ensures after.tail == before.tail && after.(tail := before.tail) == after
  {}

  lemma NewTail(ctx: PeerContext, packet: Packet, now: Instant)
    ensures NewFlow(ctx, packet, now).tail == []
  {}

  lemma TailIs(flows: map<FlowKey, FlowState>, scanned: map<FlowKey, seq<seq<Byte>>>, key: FlowKey)
    requires TailsFit(flows, scanned) && key in flows
    ensures key in scanned && flows[key].tail == Last(Stream(scanned[key]))
  {}

  /** The keys left once the first `n` acknowledgements are released. */
  ghost function AllReleased(seen: set<FlagKey>, acks: seq<seq<FlagKey>>, n: nat): set<FlagKey>
    requires n <= |acks|
  {
    set k | k in seen && forall i :: 0 <= i < n ==> k !in acks[i]
  }

  lemma NothingReleased(seen: set<FlagKey>, acks: seq<seq<FlagKey>>)
    ensures AllReleased(seen, acks, 0) == seen
  {}

  lemma OneMoreReleased(seen: set<FlagKey>, acks: seq<seq<FlagKey>>, n: nat)
    requires n < |acks|
    ensures Released(AllReleased(seen, acks, n), acks[n]) == AllReleased(seen, acks, n + 1)
  {}

  lemma TailKept(flows: map<FlowKey, FlowState>, scanned: map<FlowKey, seq<seq<Byte>>>, key: FlowKey, after: FlowState)
    requires TailsFit(flows, scanned) && after.tail == (if key in flows then flows[key].tail else [])
    ensures TailsFit(flows[key := after], scanned[key := Before(scanned, key)])
  {
    assert flows[key := after].Keys == scanned[key := Before(scanned, key)].Keys;
  }

  /** A tail is not counted. */
  lemma TailDoesNotCount(flows: map<FlowKey, FlowState>, carried: map<FlowKey, seq<Arrival>>, key: FlowKey,
                         tail: seq<Byte>)
    requires FlowsFit(flows) && Carried(flows, carried) && key in flows
    ensures FlowsFit(flows[key := flows[key].(tail := tail)])
    ensures Carried(flows[key := flows[key].(tail := tail)], carried)
  {
    hide SumOf, AddsTo;
    var after := flows[key := flows[key].(tail := tail)];
    assert after.Keys == flows.Keys && |after| == |flows.Keys|;
    forall k, m | k in after ensures Reading(after[k], m) == Reading(flows[k], m) {
    }
  }

  lemma TailStillCounts(flows: map<FlowKey, FlowState>, carried: map<FlowKey, seq<Arrival>>,
                        flows': map<FlowKey, FlowState>, carried': map<FlowKey, seq<Arrival>>,
                        ctx: PeerContext, packet: Packet, now: Instant, tail: seq<Byte>)
    requires CountsPacket(flows, carried, flows', carried', ctx, packet, now)
    ensures var key := KeyFor(ctx, packet, now);
            && key in flows'
            && CountsPacket(flows, carried, flows'[key := flows'[key].(tail := tail)], carried', ctx, packet, now)
  {
    hide Counts, NewFlow;
    var key := KeyFor(ctx, packet, now);
    var before := if key in flows then flows[key] else NewFlow(ctx, packet, now);
    assert flows'[key].(tail := tail).(tail := before.tail) == flows'[key].(tail := before.tail);
    assert flows'[key := flows'[key].(tail := tail)] == flows[key := flows'[key].(tail := tail)];
  }

  lemma TailMoves(flows: map<FlowKey, FlowState>, scanned: map<FlowKey, seq<seq<Byte>>>, key: FlowKey,
                  payload: seq<Byte>)
    requires TailsFit(flows, scanned) && key in flows
    ensures TailsFit(flows[key := flows[key].(tail := Last(flows[key].tail + payload))],
                     scanned[key := scanned[key] + [payload]])
  {
    hide Last, Stream;
    StreamAppend(scanned[key], payload);
    LastOfAppend(Stream(scanned[key]), payload);
    assert flows[key := flows[key].(tail := Last(flows[key].tail + payload))].Keys == flows.Keys;
  }

  // ---- the capture thread as part of the protocol ----

  /** A protocol state in which the capture thread has `core`, is about to offer
      `rest`, and shares these queues with the upload task. */
  ghost predicate Mirrors(w: State, core: Core, rest: seq<TelemetryBatch>, channel: seq<Captured>,
                          spooling: seq<Captured>, acks: seq<seq<FlagKey>>) {
    w.core == core && w.flushing == rest && w.channel == channel && w.spooling == spooling && w.acks == acks
  }

  lemma SightMirrors(w: State, core: Core, channel: seq<Captured>, spooling: seq<Captured>, acks: seq<seq<FlagKey>>,
                     s: Sighting)
    requires Mirrors(w, core, [], channel, spooling, acks)
    ensures Enabled(w, Sight(s))
    ensures Mirrors(Apply(w, Sight(s)), core.(tracker := Track(core.tracker, s)), [], channel, spooling, acks)
  {}

  lemma LoseMirrors(w: State, core: Core, channel: seq<Captured>, spooling: seq<Captured>, acks: seq<seq<FlagKey>>,
                    gameId: int, rows: nat, bytes: nat)
    requires Mirrors(w, core, [], channel, spooling, acks)
    ensures Enabled(w, Lose(gameId, rows, bytes))
    ensures Mirrors(Apply(w, Lose(gameId, rows, bytes)), core.(drops := RecordDrop(core.drops, gameId, rows, bytes)),
                    [], channel, spooling, acks)
  {}

  lemma CollectMirrors(w: State, core: Core, channel: seq<Captured>, spooling: seq<Captured>, acks: seq<seq<FlagKey>>,
                       batches: seq<TelemetryBatch>)
    requires Mirrors(w, core, [], channel, spooling, acks) && Collected(core, batches)
    ensures Enabled(w, Collect(batches))
    ensures Mirrors(Apply(w, Collect(batches)), Drained(core), batches, channel, spooling, acks)
  {
    hide Collected;
  }

  lemma OfferMirrors(w: State, core: Core, rest: seq<TelemetryBatch>, channel: seq<Captured>, spooling: seq<Captured>,
                     acks: seq<seq<FlagKey>>, taken: bool)
    requires Mirrors(w, core, rest, channel, spooling, acks) && rest != [] && (taken ==> |channel| < BATCH_QUEUE)
    ensures Enabled(w, Offer(taken))
    ensures Mirrors(Apply(w, Offer(taken)), Dispatched(core, rest[0], taken), rest[1..],
                    if taken then channel + [Outgoing(rest[0])] else channel, spooling, acks)
  {
    hide Dispatched, Outgoing;
  }

  lemma UploadMirrors(w: State, core: Core, rest: seq<TelemetryBatch>, channel: seq<Captured>, spooling: seq<Captured>,
                      acks: seq<seq<FlagKey>>)
    requires Mirrors(w, core, rest, channel, spooling, acks)
    ensures channel != [] && spooling == [] ==>
              Enabled(w, Receive) && Mirrors(Apply(w, Receive), core, rest, channel[1..], [channel[0]], acks)
    ensures spooling != [] ==>
              && Enabled(w, Spooled)
              && Mirrors(Apply(w, Spooled), core, rest, channel, spooling[1..], acks + [spooling[0].keys])
  {}

  lemma ReleaseMirrors(w: State, core: Core, channel: seq<Captured>, spooling: seq<Captured>, acks: seq<seq<FlagKey>>)
    requires Mirrors(w, core, [], channel, spooling, acks) && acks != []
    ensures Enabled(w, Release)
    ensures Mirrors(Apply(w, Release), core.(tracker := core.tracker.(seen := Released(core.tracker.seen, acks[0]))),
                    [], channel, spooling, acks[1..])
  {
    hide Released;
  }

  /** What the upload task can do while the capture thread is busy. */
  datatype UploadMove = ReceiveNext | FinishSpooling

  ghost predicate UploadSteps(steps: seq<Step>) {
    forall i :: 0 <= i < |steps| ==> steps[i].Receive? || steps[i].Spooled?
  }

  /** Steps of a flush that offers `n` batches. */
  ghost predicate FlushSteps(steps: seq<Step>, n: nat) {
    if steps == [] then n == 0
    else
      var init, last := steps[..|steps| - 1], steps[|steps| - 1];
      if last.Offer? then n > 0 && FlushSteps(init, n - 1) else (last.Receive? || last.Spooled?) && FlushSteps(init, n)
  }

  lemma NoSteps()
    ensures FlushSteps([], 0)
  {}

  lemma {:induction false} MoreUploads(steps: seq<Step>, n: nat, more: seq<Step>)
    requires FlushSteps(steps, n) && UploadSteps(more)
    ensures FlushSteps(steps + more, n)
  {
    if more == [] {
      assert steps + more == steps;
    } else {
      MoreUploads(steps, n, more[..|more| - 1]);
      assert (steps + more)[..|steps + more| - 1] == steps + more[..|more| - 1];
    }
  }

  lemma OneMoreOffer(steps: seq<Step>, n: nat, taken: bool)
    requires FlushSteps(steps, n)
    ensures FlushSteps(steps + [Offer(taken)], n + 1)
  {
    assert (steps + [Offer(taken)])[..|steps|] == steps;
  }

  /** The capture thread's tables, and the queues it shares with the upload task: the
      bounded channel, the batch that task is writing, and the acknowledgements. */
  class CaptureState {
    var flows: map<FlowKey, FlowState>
    var destinations: map<Slot, set<nat>>
    var dns: map<DnsKey, DnsState>
    var flags: seq<Sighting>
    var seenFlags: set<FlagKey>
    var pendingDrops: map<int, Drops>
    var channel: seq<Captured>
    var spooling: seq<Captured>
    var acks: seq<seq<FlagKey>>
    ghost var carried: map<FlowKey, seq<Arrival>>     // the packets that each tracked flow has carried
    ghost var scanned: map<FlowKey, seq<seq<Byte>>>  // the payloads of those that were scanned
    ghost var run: seq<Step>                         // every protocol step so far
    ghost var world: State

    constructor ()
      ensures Valid() && flows == map[] && dns == map[] && destinations == map[] && run == []
    {
      flows, destinations, dns := map[], map[], map[];
      flags, seenFlags, pendingDrops := [], {}, map[];
      channel, spooling, acks := [], [], [];
      carried, scanned := map[], map[];
      run, world := [], CaptureProtocol.Start();
    }

    /** The tables stay within their limits and count what the flows carried. */
    ghost predicate Fits()
      reads this
    {
      && FlowsFit(flows) && Carried(flows, carried) && TailsFit(flows, scanned) && |seenFlags| <= MAX_TRACKED_FLOWS
      && DestinationsFit(destinations) && DnsFits(dns)
    }

    /** The state is what the protocol computes from the steps taken. */
    ghost predicate Tracks(rest: seq<TelemetryBatch>)
      reads this
    {
      world == Exec(run) && Mirrors(world, View(), rest, channel, spooling, acks)
    }

    ghost predicate Valid()
      reads this
    {
      Fits() && Tracks([])
    }

    /** The part that the capture protocol speaks about. */
    function View(): Core
      reads this
    {
      Core(Tracker(flags, seenFlags), pendingDrops)
    }

    /** Records a protocol step that the caller has just performed. */
    ghost method Log(step: Step)
      requires world == Exec(run) && Enabled(world, step)
      modifies this`run, this`world
      ensures world == Exec(run) && run == old(run) + [step] && world == Apply(old(world), step)
    {
      hide Apply, Enabled;
      run := run + [step];
      assert run[..|run| - 1] == old(run);
      world := Apply(world, step);
    }

    /** Whatever methods that log their steps were called: the seen keys are exactly
        those on their way, and every game's books balance. */
    lemma BooksAreKept(gameId: int)
      requires Valid()
      ensures multiset(seenFlags) == Outstanding(world) && world.core == View() && world.acks == acks
      ensures var entered := Entered(world, gameId);
              var accounted := SumOf(BatchRows(gameId), world.spooled) + InSensor(world, gameId);
              accounted <= entered && (entered <= I64_MAX ==> accounted == entered)
    {
      RunKeepsExact(run);
      EveryGameBalances(run, gameId);
    }

    method RecordDrop(gameId: int, rows: nat, bytes: nat)
      modifies this`pendingDrops
      ensures pendingDrops == CaptureProtocol.RecordDrop(old(pendingDrops), gameId, rows, bytes)
    {
      var entry := if gameId in pendingDrops then pendingDrops[gameId] else Drops(0, 0);
      entry := entry.(rows := SaturatingAddU64(entry.rows, rows));
      entry := entry.(bytes := SaturatingAddU64(entry.bytes, bytes));
      pendingDrops := pendingDrops[gameId := entry];
    }

    method TrackFlag(gameId: int, flag: FlagTransport) returns (r: TrackResult)
      modifies this`flags, this`seenFlags
      ensures r == TrackResultOf(old(seenFlags), Sighting(gameId, flag))
      ensures View() == old(View()).(tracker := Track(old(View().tracker), Sighting(gameId, flag)))
      ensures old(|seenFlags|) <= MAX_TRACKED_FLOWS ==> |seenFlags| <= MAX_TRACKED_FLOWS
    {
      var dedup := KeyOf(gameId, flag);
      if dedup in seenFlags {
        return Duplicate;
      }
      if |seenFlags| >= MAX_TRACKED_FLOWS {
        return Capacity;
      }
      seenFlags := seenFlags + {dedup};
      flags := flags + [Sighting(gameId, flag)];
      r := Queued;
    }

    method ReleaseFlagDedup(keys: seq<FlagKey>)
      modifies this`seenFlags
      ensures seenFlags == Released(old(seenFlags), keys)
      ensures forall k :: k in seenFlags <==> k in old(seenFlags) && k !in keys
    {
      for i := 0 to |keys|
        invariant seenFlags == Released(old(seenFlags), keys[..i])
      {
        seenFlags := seenFlags - {keys[i]};
      }
      assert keys[..|keys|] == keys;
    }

    /** Releases everything that is waiting in the acknowledgement channel. */
    method ReleaseAcknowledgedFlags()
      requires Valid()
      modifies this`seenFlags, this`acks, this`run, this`world
      ensures Valid() && acks == [] && old(run) <= run
      ensures seenFlags == set k | k in old(seenFlags) && forall i :: 0 <= i < |old(acks)| ==> k !in old(acks)[i]
    {
      hide Exec, Apply, Enabled, Mirrors, Released, FlowsFit, Carried, TailsFit, DestinationsFit, DnsFits;
      ghost var n := 0;
      NothingReleased(seenFlags, acks);
      while acks != []
        invariant Valid() && old(run) <= run && n <= |old(acks)| && acks == old(acks)[n..]
        invariant seenFlags == AllReleased(old(seenFlags), old(acks), n)
        decreases |acks|
      {
        var keys := acks[0];
        ReleaseMirrors(world, View(), channel, spooling, acks);
        ReleasedSize(seenFlags, keys);
        OneMoreReleased(old(seenFlags), old(acks), n);
        ReleaseFlagDedup(keys);
        acks := acks[1..];
        Log(Release);
        n := n + 1;
      }
    }

    // ---- the upload task ----

    /** Receives the next batch, or acknowledges the one that is now in the spool. */
    method UploadStep(move: UploadMove, ghost rest: seq<TelemetryBatch>) returns (ghost moved: seq<Step>)
      requires Tracks(rest)
      modifies this`channel, this`spooling, this`acks, this`run, this`world
      ensures Tracks(rest) && run == old(run) + moved && UploadSteps(moved)
    {
      hide Exec, Apply, Enabled, Mirrors;
      UploadMirrors(world, View(), rest, channel, spooling, acks);
      moved := [];
      match move {
        case ReceiveNext =>
          if channel != [] && spooling == [] {
            spooling, channel := [channel[0]], channel[1..];
            Log(Receive);
            moved := [Receive];
          }
        case FinishSpooling =>
          if spooling != [] {
            acks, spooling := acks + [spooling[0].keys], spooling[1..];
            Log(Spooled);
            moved := [Spooled];
          }
      }
    }

    method Upload(moves: seq<UploadMove>, ghost rest: seq<TelemetryBatch>) returns (ghost moved: seq<Step>)
      requires Tracks(rest)
      modifies this`channel, this`spooling, this`acks, this`run, this`world
      ensures Tracks(rest) && run == old(run) + moved && UploadSteps(moved)
    {
      hide Exec, Mirrors;
      moved := [];
      for i := 0 to |moves|
        invariant Tracks(rest) && run == old(run) + moved && UploadSteps(moved)
      {
        ghost var one := UploadStep(moves[i], rest);
        moved := moved + one;
      }
    }

    // ---- collecting ----

    /** Folds each completed flow into its slot's row and takes it out of the table. */
    method FoldCompleted(cutoff: int) returns (rows: map<Slot, FlowBucket>)
      requires FlowsFit(flows)
      modifies this`flows
      ensures flows == Without(old(flows), Completed(old(flows), cutoff))
      ensures Aggregated(old(flows), Completed(old(flows), cutoff), rows)
    {
      hide Aggregated, FlowsFit, WithFlow, Visiting, Completed, Without;
      rows := map[];
      var todo := Completed(flows, cutoff);
      ghost var done: set<FlowKey> := {};
      NothingAggregated(flows);
      VisitStart(todo);
      WithoutNone(flows);
      while todo != {}
        invariant Visiting(todo, done, Completed(old(flows), cutoff))
        invariant flows == Without(old(flows), done) && Aggregated(old(flows), done, rows)
        decreases |todo|
      {
        var key := Next(todo);
        VisitStep(todo, done, Completed(old(flows), cutoff), key);
        CompletedIsFlow(old(flows), cutoff, key);
        KnownPeer(old(flows), key);
        AggregateStep(old(flows), done, rows, key);
        WithoutOneMore(old(flows), done, key);
        var flow := flows[key];
        todo, done, flows := todo - {key}, done + {key}, flows - {key};
        rows := WithFlow(rows, key, flow);
      }
      VisitEnd(done, Completed(old(flows), cutoff));
    }

    /** Takes the completed flows out of the table and adds up those that are reported. */
    method AggregateFlows(cutoff: int) returns (rows: map<Slot, FlowBucket>)
      requires Fits()
      modifies this`flows, this`carried, this`scanned
      ensures Fits() && flows == old(flows) - Completed(old(flows), cutoff)
      ensures Aggregated(old(flows), Completed(old(flows), cutoff), rows)
    {
      hide Aggregated, FlowsFit, Carried, TailsFit, DestinationsFit, DnsFits, Completed, Without;
      ghost var gone := Completed(flows, cutoff);
      rows := FoldCompleted(cutoff);
      assert destinations == old(destinations) && dns == old(dns) && seenFlags == old(seenFlags);
      assert carried == old(carried) && scanned == old(scanned);
      FewerFlowsFit(old(flows), carried, gone);
      FewerTailsFit(old(flows), scanned, gone);
      carried, scanned := Without(carried, gone), Without(scanned, gone);
    }

    /** Puts each row, with its number of distinct destinations, into its game's batch. */
    method EmitFlows(rows: map<Slot, FlowBucket>) returns (batches: Batches)
      requires Fits() && forall slot :: slot in rows ==> RowSlot(slot.gameId, rows[slot]) == slot
      modifies this`destinations
      ensures Fits() && destinations == old(destinations) - rows.Keys
      ensures Built(batches, Done(Finished(rows, old(destinations)), map[], [], map[]))
    {
      hide Built, RowSlot, FlowsFit, Carried, TailsFit, DestinationsFit, DnsFits, Visiting, Restrict, Entry;
      batches := map[];
      var todo := rows.Keys;
      ghost var done: set<Slot> := {};
      ghost var finished := Finished(rows, destinations);
      RestrictNone(finished);
      NothingBuilt();
      VisitStart(todo);
      assert finished.Keys == rows.Keys;
      while todo != {}
        invariant Visiting(todo, done, rows.Keys)
        invariant destinations == old(destinations) - done
        invariant Built(batches, Done(Restrict(finished, done), map[], [], map[]))
        decreases |todo|
      {
        var slot := Next(todo);
        VisitStep(todo, done, rows.Keys, slot);
        DropOneMore(old(destinations), done, slot);
        RestrictOneMore(finished, done, slot);
        var row := rows[slot].(distinctDestinations := if slot in destinations then |destinations[slot]| else 0);
        KeepsSlot(rows[slot], row, slot);
        var id: Uuid := *;
        var entry := Entry(batches, slot.gameId, id);
        AddFlow(batches, Done(Restrict(finished, done), map[], [], map[]), slot, row, id);
        batches := batches[slot.gameId := entry.(flows := entry.flows + [row])];
        todo, done, destinations := todo - {slot}, done + {slot}, destinations - {slot};
      }
      VisitEnd(done, rows.Keys);
      RestrictAll(finished);
      FewerFit(old(destinations), done, dns, {});
    }

    method EmitDns(batches0: Batches, cutoff: int, ghost done0: Done) returns (batches: Batches)
      requires Fits() && Built(batches0, done0) && done0.dns == map[]
      modifies this`dns
      ensures Fits() && dns == old(dns) - CompletedDns(old(dns), cutoff)
      ensures Built(batches, done0.(dns := DnsRows(old(dns), cutoff)))
    {
      hide Built, FlowsFit, Carried, TailsFit, DestinationsFit, Visiting, Restrict, Entry;
      batches := batches0;
      var todo := CompletedDns(dns, cutoff);
      ghost var done: set<DnsKey> := {};
      ghost var rows := DnsRows(dns, cutoff);
      RestrictNone(rows);
      VisitStart(todo);
      assert rows.Keys == todo;
      assert done0.(dns := Restrict(rows, done)) == done0;
      while todo != {}
        invariant Visiting(todo, done, rows.Keys)
        invariant dns == old(dns) - done
        invariant Built(batches, done0.(dns := Restrict(rows, done)))
        decreases |todo|
      {
        var key := Next(todo);
        VisitStep(todo, done, rows.Keys, key);
        DropOneMore(old(dns), done, key);
        RestrictOneMore(rows, done, key);
        var state := dns[key];
        var row := DnsRow(key, state);
        var id: Uuid := *;
        var entry := Entry(batches, key.gameId, id);
        AddDns(batches, done0.(dns := Restrict(rows, done)), key, row, id);
        batches := batches[key.gameId := entry.(dnsProviders := entry.dnsProviders + [row])];
        todo, done, dns := todo - {key}, done + {key}, dns - {key};
      }
      VisitEnd(done, rows.Keys);
      RestrictAll(rows);
      FewerFit(destinations, {}, old(dns), done);
    }

    method EmitFlags(batches0: Batches, ghost done: Done) returns (batches: Batches)
      requires Built(batches0, done) && done.flags == []
      modifies this`flags
      ensures flags == [] && Built(batches, done.(flags := old(flags)))
    {
      hide Built;
      batches := batches0;
      assert done.(flags := flags[..0]) == done;
      for i := 0 to |flags|
        invariant flags == old(flags)
        invariant Built(batches, done.(flags := flags[..i]))
      {
        var id: Uuid := *;
        var entry := Entry(batches, flags[i].gameId, id);
        AddFlag(batches, done.(flags := flags[..i]), flags[i], id);
        assert flags[..i + 1] == flags[..i] + [flags[i]];
        batches := batches[flags[i].gameId := entry.(flagTransports := entry.flagTransports + [flags[i].flag])];
      }
      assert flags[..|flags|] == flags;
      flags := [];
    }

    method EmitDrops(batches0: Batches, ghost done0: Done) returns (batches: Batches)
      requires Built(batches0, done0) && done0.drops == map[]
      modifies this`pendingDrops
      ensures pendingDrops == map[] && Built(batches, done0.(drops := old(pendingDrops)))
    {
      hide Built, Visiting, Restrict, Entry;
      batches := batches0;
      ghost var done: set<int> := {};
      RestrictNone(pendingDrops);
      VisitStart(pendingDrops.Keys);
      assert done0.(drops := Restrict(pendingDrops, done)) == done0;
      while pendingDrops != map[]
        invariant Visiting(pendingDrops.Keys, done, old(pendingDrops).Keys)
        invariant pendingDrops == old(pendingDrops) - done
        invariant Built(batches, done0.(drops := Restrict(old(pendingDrops), done)))
        decreases |pendingDrops|
      {
        var gameId := Next(pendingDrops.Keys);
        VisitStep(pendingDrops.Keys, done, old(pendingDrops).Keys, gameId);
        DropOneMore(old(pendingDrops), done, gameId);
        RestrictOneMore(old(pendingDrops), done, gameId);
        var drops := pendingDrops[gameId];
        var id: Uuid := *;
        var entry := Entry(batches, gameId, id);
        AddDrops(batches, done0.(drops := Restrict(old(pendingDrops), done)), gameId, drops, id);
        batches := batches[gameId := entry.(droppedRows := Min(drops.rows, I64_MAX),
                                            droppedBytes := Min(drops.bytes, I64_MAX))];
        done, pendingDrops := done + {gameId}, pendingDrops - {gameId};
      }
      VisitEnd(done, old(pendingDrops).Keys);
      RestrictAll(old(pendingDrops));
    }

    /** Everything complete leaves the tables and is reported once: one batch per
        game, one row per peer and bucket with the totals of its flows, every
        pending flag and every pending loss. */
    method CompletedBatches(now: Instant) returns (batches: seq<TelemetryBatch>)
      requires Valid()
      modifies this`flows, this`carried, this`scanned, this`destinations, this`dns, this`flags, this`pendingDrops,
               this`run, this`world
      ensures Fits() && Tracks(batches) && View() == Drained(old(View()))
      ensures Collected(old(View()), batches) && run == old(run) + [Collect(batches)]
      ensures flows == old(flows) - Completed(old(flows), Bucket(now, FLOW_BUCKET_SECONDS))
      ensures dns == old(dns) - CompletedDns(old(dns), Bucket(now, DNS_BUCKET_SECONDS))
      ensures destinations == Unreported(old(destinations), old(flows), Bucket(now, FLOW_BUCKET_SECONDS))
      ensures ReportsFlows(old(flows), old(destinations), Bucket(now, FLOW_BUCKET_SECONDS), batches)
      ensures ReportsDns(old(dns), Bucket(now, DNS_BUCKET_SECONDS), batches)
    {
      hide Built, Aggregated, Collected, Unreported, ReportsFlows, ReportsDns, Completed, CompletedDns;
      hide FlowsFit, Carried, TailsFit, DestinationsFit, DnsFits, Exec, Apply, Enabled, Mirrors;
      var rows := AggregateFlows(Bucket(now, FLOW_BUCKET_SECONDS));
      RowsKeepSlots(old(flows), Completed(old(flows), Bucket(now, FLOW_BUCKET_SECONDS)), rows);
      UnreportedIs(old(destinations), old(flows), Bucket(now, FLOW_BUCKET_SECONDS), rows);
      var grouped := EmitFlows(rows);
      ghost var done := Done(Finished(rows, old(destinations)), map[], [], map[]);
      grouped := EmitDns(grouped, Bucket(now, DNS_BUCKET_SECONDS), done);
      done := done.(dns := DnsRows(old(dns), Bucket(now, DNS_BUCKET_SECONDS)));
      grouped := EmitFlags(grouped, done);
      done := done.(flags := old(flags));
      grouped := EmitDrops(grouped, done);
      done := done.(drops := old(pendingDrops));
      batches := IntoValues(grouped, done);
      BuiltIsCollected(old(View()), grouped, done, batches);
      BuiltReports(old(flows), old(destinations), Bucket(now, FLOW_BUCKET_SECONDS), rows, grouped, done, batches);
      BuiltReportsDns(old(dns), Bucket(now, DNS_BUCKET_SECONDS), grouped, done, batches);
      CollectMirrors(world, old(View()), channel, spooling, acks, batches);
      Log(Collect(batches));
    }

    // ---- sending ----

    /** Trims the next batch and offers it to the channel; a refused batch is given
        back as a recorded loss and its flags may be reported again. */
    method SendBatch(batch: TelemetryBatch, open: bool, ghost rest: seq<TelemetryBatch>)
      requires Fits() && Tracks([batch] + rest)
      modifies this`seenFlags, this`pendingDrops, this`channel, this`run, this`world
      ensures Fits() && Tracks(rest)
      ensures run == old(run) + [Offer(open && |old(channel)| < BATCH_QUEUE)]
    {
      hide Exec, Apply, Enabled, Mirrors, FlowsFit, Carried, TailsFit, DestinationsFit, DnsFits, Collected;
      ghost var taken := open && |channel| < BATCH_QUEUE;
      OfferMirrors(world, View(), [batch] + rest, channel, spooling, acks, taken);
      DispatchForgets(View(), batch, taken);
      assert ([batch] + rest)[1..] == rest;
      var captured := Prepare(batch);
      if open && |channel| < BATCH_QUEUE {
        channel := channel + [captured];
      } else {
        ReleaseFlagDedup(captured.keys);
        var lost := captured.telemetry;
        var lostRows := |lost.flows| + |lost.dnsProviders| + |lost.peerNetworks| + |lost.flagTransports|;
        RecordDrop(lost.gameId, SaturatingAddU64(Min(lostRows, U64_MAX), U64(lost.droppedRows)),
                   U64(lost.droppedBytes));
      }
      Log(Offer(taken));
    }

    /** Trims a batch, releases the keys of the flags that gave way and counts what
        was trimmed. */
    method Prepare(batch: TelemetryBatch) returns (captured: Captured)
      modifies this`seenFlags
      ensures captured == Outgoing(batch) && captured.telemetry.gameId == batch.gameId
      ensures seenFlags == Released(old(seenFlags), CutKeys(batch))
    {
      var keys := KeysOf(batch.gameId, batch.flagTransports);
      var kept, trimmed := TrimBatch(batch);
      TrimKeepsWhatFits(batch);
      KeysSplit(batch.gameId, batch.flagTransports, |kept.flagTransports|);
      assert kept.flagTransports == batch.flagTransports[..|kept.flagTransports|];
      var dropped := keys[|kept.flagTransports|..];
      keys := keys[..|kept.flagTransports|];
      ReleaseFlagDedup(dropped);
      kept := kept.(droppedRows := SaturatingAddI64(kept.droppedRows, Min(trimmed, I64_MAX)));
      captured := Captured(kept, keys);
    }

    /** The upload task goes on, then the next batch is offered. */
    method FlushOne(batch: TelemetryBatch, open: bool, moves: seq<UploadMove>, ghost rest: seq<TelemetryBatch>,
                    ghost base: seq<Step>, ghost steps: seq<Step>, ghost n: nat)
      returns (ghost more: seq<Step>)
      requires Fits() && Tracks([batch] + rest) && run == base + steps && FlushSteps(steps, n)
      modifies this`channel, this`spooling, this`acks, this`seenFlags, this`pendingDrops, this`run, this`world
      ensures Fits() && Tracks(rest) && run == base + more && FlushSteps(more, n + 1)
    {
      hide Exec, Mirrors, FlowsFit, Carried, TailsFit, DestinationsFit, DnsFits, UploadSteps, FlushSteps;
      ghost var moved := Upload(moves, [batch] + rest);
      MoreUploads(steps, n, moved);
      ghost var taken := open && |channel| < BATCH_QUEUE;
      SendBatch(batch, open, rest);
      OneMoreOffer(steps + moved, n, taken);
      more := steps + moved + [Offer(taken)];
    }

    /** One flush: everything collected is offered once, in turn, while the upload
        task goes on. `upload(i)` is what that task does before the i-th offer, and
        `open(i)` tells whether it still listens. */
    method Flush(now: Instant, open: nat -> bool, upload: nat -> seq<UploadMove>)
      returns (ghost offered: seq<TelemetryBatch>, ghost steps: seq<Step>)
      requires Valid()
      modifies this
      ensures Valid() && Collected(old(View()), offered)
      ensures run == old(run) + [Collect(offered)] + steps && FlushSteps(steps, |offered|)
    {
      hide Exec, Mirrors, Collected, ReportsFlows, ReportsDns, FlowsFit, Carried, TailsFit, DestinationsFit, DnsFits;
      hide UploadSteps, FlushSteps, Unreported, Completed, CompletedDns, Drained, Bucket;
      NoSteps();
      var batches := CompletedBatches(now);
      offered, steps := batches, [];
      ghost var base := run;
      assert batches[0..] == batches && base + [] == base;
      for i := 0 to |batches|
        invariant Fits() && Tracks(batches[i..])
        invariant run == base + steps && FlushSteps(steps, i)
      {
        assert batches[i..] == [batches[i]] + batches[i + 1..];
        steps := FlushOne(batches[i], open(i), upload(i), batches[i + 1..], base, steps, i);
      }
      assert batches[|batches|..] == [];
    }

    // ---- one packet ----

    method CountFlow(ctx: PeerContext, packet: Packet, now: Instant)
      requires Fits() && !Overflows(flows, ctx, packet, now)
      modifies this`flows, this`carried, this`scanned
      ensures Fits() && CountsPacket(old(flows), old(carried), flows, carried, ctx, packet, now)
      ensures var key := KeyFor(ctx, packet, now);
              && scanned == old(scanned)[key := Before(old(scanned), key)]
              && key in flows && flows[key].tail == Last(Stream(Before(old(scanned), key)))
    {
      hide FlowsFit, Carried, TailsFit, DestinationsFit, DnsFits, Counts, AddsPacket, KeyFor, NewFlow, Reading, SumOf,
           AddsTo, Last, Stream;
      var key := KeyFor(ctx, packet, now);
      var before := if key in flows then flows[key] else NewFlow(ctx, packet, now);
      var flow := AddPacket(before, packet, now);
      AddsPacketCounts(before, packet, now, flow);
      ghost var packets := if key in carried then carried[key] else [];
      KnownFlow(flows, carried, key, before, packets, ctx, packet, now);
      ghost var next := Arrival(packet, now, ctx.behavior);
      CountKeepsTable(flows, carried, key, before, packets, next, flow);
      SameTail(before, packet, now, flow);
      NewTail(ctx, packet, now);
      TailKept(flows, scanned, key, flow);
      flows := flows[key := flow];
      carried := carried[key := packets + [next]];
      scanned := scanned[key := Before(scanned, key)];
      TailIs(flows, scanned, key);
    }

    /** Moves a flow's tail past a payload that was scanned. */
    method MoveTail(key: FlowKey, payload: seq<Byte>)
      requires Fits() && key in flows
      modifies this`flows, this`scanned
      ensures Fits() && flows == old(flows)[key := old(flows)[key].(tail := flows[key].tail)]
      ensures key in old(scanned) && scanned == old(scanned)[key := old(scanned)[key] + [payload]]
    {
      hide FlowsFit, Carried, TailsFit, DestinationsFit, DnsFits, Last, Stream;
      TailMoves(flows, scanned, key, payload);
      TailDoesNotCount(flows, carried, key, Last(flows[key].tail + payload));
      TailIs(flows, scanned, key);
      var tail := AppendTail(flows[key].tail, payload);
      flows := flows[key := flows[key].(tail := tail)];
      scanned := scanned[key := scanned[key] + [payload]];
    }

    method NoteDestination(slot: Slot, remote: nat)
      requires Fits()
      modifies this`destinations
      ensures Fits()
      ensures destinations == Noted(old(destinations), slot, remote)
    {
      hide FlowsFit, Carried, TailsFit, DnsFits;
      var known := if slot in destinations then destinations[slot] else {};
      if |known| < MAX_DESTINATIONS_PER_BUCKET {
        DestinationCount(known, remote);
        known := known + {remote};
      }
      destinations := destinations[slot := known];
    }

    method CountDns(key: DnsKey, peer: SensorPeer, now: Instant)
      requires Fits() && peer.peerId == key.peerId
      modifies this`dns
      ensures Fits() && dns == DnsCounted(old(dns), key, peer, now)
    {
      hide FlowsFit, Carried, TailsFit, DestinationsFit;
      var known := if key in dns then dns[key] else DnsState(peer, 0, now, now);
      known := known.(count := Min(known.count + 1, I32_MAX));
      known := known.(last := now);
      dns := dns[key := known];
    }

    /** Queues the matches that count and returns how many found no place. */
    method QueueMatches(ctx: PeerContext, packet: Packet, now: Instant, found: seq<Match>) returns (dropped: nat)
      requires Valid()
      modifies this`flags, this`seenFlags, this`run, this`world
      ensures Valid() && old(run) <= run
      ensures pendingDrops == old(pendingDrops)
      ensures Reports(old(View().tracker), ctx, packet, now, found, View().tracker, dropped)
    {
      hide FlowsFit, Carried, TailsFit, DestinationsFit, DnsFits, Track, TrackResultOf, Exec, Apply, Enabled, Mirrors;
      dropped := 0;
      ghost var start := View().tracker;
      for i := 0 to |found|
        invariant Valid() && old(run) <= run && pendingDrops == old(pendingDrops)
        invariant View().tracker == TrackAll(start, Relevant(ctx, packet, now, found[..i]))
        invariant dropped == Refused(start, Relevant(ctx, packet, now, found[..i]))
      {
        var m := found[i];
        assert found[..i + 1][..i] == found[..i];
        ghost var sofar := Relevant(ctx, packet, now, found[..i]);
        assert sofar + [] == sofar;
        if m.gameId != ctx.gameId || m.owner == ctx.peer.participationId {
          continue;
        }
        var flag := FlagOf(ctx, packet, now, m);
        assert (sofar + [Sighting(ctx.gameId, flag)])[..|sofar|] == sofar;
        SightMirrors(world, View(), channel, spooling, acks, Sighting(ctx.gameId, flag));
        var r := TrackFlag(ctx.gameId, flag);
        Log(Sight(Sighting(ctx.gameId, flag)));
        if r == Capacity {
          dropped := dropped + 1;
        }
      }
      assert found[..|found|] == found;
      ghost var picks := RelevantTells(ctx, packet, now, found);
    }

    /** A loss that capture reports by itself. */
    method ReportLoss(gameId: int, rows: nat, bytes: nat)
      requires Valid()
      modifies this`pendingDrops, this`run, this`world
      ensures Valid() && run == old(run) + [Lose(gameId, rows, bytes)]
      ensures View() == old(View()).(drops := CaptureProtocol.RecordDrop(old(pendingDrops), gameId, rows, bytes))
    {
      hide FlowsFit, Carried, TailsFit, DestinationsFit, DnsFits, Exec, Apply, Enabled, Mirrors;
      LoseMirrors(world, View(), channel, spooling, acks, gameId, rows, bytes);
      RecordDrop(gameId, rows, bytes);
      Log(Lose(gameId, rows, bytes));
    }

    /** Counts a packet of a flow that has a place in the table. */
    method CountPacket(ctx: PeerContext, packet: Packet, now: Instant, categoryOf: seq<Byte> -> Option<int>)
      requires Fits() && !Overflows(flows, ctx, packet, now)
      modifies this`flows, this`carried, this`scanned, this`destinations, this`dns
      ensures Fits() && CountsPacket(old(flows), old(carried), flows, carried, ctx, packet, now)
      ensures var key := KeyFor(ctx, packet, now);
              && scanned == old(scanned)[key := Before(old(scanned), key)]
              && key in flows && flows[key].tail == Last(Stream(Before(old(scanned), key)))
      ensures destinations == DestinationsAfter(old(destinations), ctx, packet, now)
      ensures dns == DnsAfter(old(dns), ctx, packet, now, categoryOf)
    {
      hide FlowsFit, Carried, TailsFit, DestinationsFit, DnsFits, Counts, KeyFor, NewFlow, Noted, DnsCounted, Last,
           Stream, Question;
      CountFlow(ctx, packet, now);
      if ctx.behavior {
        NoteDestination(SlotOf(KeyFor(ctx, packet, now)), packet.remote);
      }
      if ctx.dns && packet.outbound && packet.remotePort == 53 {
        var name := ParseDnsQuestion(packet.payload, packet.protocol == 6);
        if name.Some? {
          var category := categoryOf(name.value);
          if category.Some? {
            CountDns(DnsKeyFor(ctx, now, category.value), ctx.peer, now);
          }
        }
      }
    }

    /** Scans a packet of a counted flow: the previous tail and the payload go to the
        matcher, then the tail moves on. */
    method ScanPacket(ctx: PeerContext, packet: Packet, now: Instant, matcher: Option<seq<Byte> -> seq<Match>>,
                      key: FlowKey)
      requires Valid() && ctx.flagScan && key in flows && key in scanned
      requires flows[key].tail == Last(Stream(scanned[key]))
      modifies this`flows, this`scanned, this`flags, this`seenFlags, this`pendingDrops, this`run, this`world
      ensures Valid() && old(run) <= run
      ensures key in flows && flows == old(flows)[key := old(flows)[key].(tail := flows[key].tail)]
      ensures scanned == old(scanned)[key := old(scanned)[key] + [packet.payload]]
      ensures var scan := Buffer(Stream(old(scanned)[key]), packet.payload);
              ReportsPacket(old(View()), ctx, packet, now, if matcher.Some? then matcher.value(scan) else [], View())
    {
      hide Reports, FlowsFit, Carried, TailsFit, DestinationsFit, DnsFits, Exec, Mirrors, TrackAll, Refused;
      hide CaptureProtocol.RecordDrop, Last, Stream;
      NothingReported(View(), ctx, packet, now);
      if matcher.None? {
        MoveTail(key, packet.payload);
        return;
      }
      var scan := flows[key].tail + packet.payload;
      var dropped := QueueMatches(ctx, packet, now, matcher.value(scan));
      MoveTail(key, packet.payload);
      if dropped > 0 {
        ReportLoss(ctx.gameId, Min(dropped, U64_MAX),
                   SaturatingMulU64(Min(|packet.payload|, U64_MAX), Min(dropped, U64_MAX)));
      }
    }

    /** One packet of a known peer. `categoryOf` classifies names and `matcher` is the
        snapshot's pattern matcher, if it has one. A new flow that no longer fits the
        table is a recorded loss; so is every match that found no place. */
    method InspectPacket(ctx: PeerContext, packet: Packet, now: Instant, categoryOf: seq<Byte> -> Option<int>,
                         matcher: Option<seq<Byte> -> seq<Match>>)
      requires Valid()
      modifies this
      ensures Valid() && old(run) <= run
      ensures !Watched(ctx) || Overflows(old(flows), ctx, packet, now) ==>
                && flows == old(flows) && dns == old(dns) && destinations == old(destinations)
                && carried == old(carried) && scanned == old(scanned)
      ensures !Watched(ctx) ==> View() == old(View())
      ensures Watched(ctx) && Overflows(old(flows), ctx, packet, now) ==> View() == Overflown(old(View()), ctx, packet)
      ensures Watched(ctx) && !Overflows(old(flows), ctx, packet, now) ==>
                && CountsPacket(old(flows), old(carried), flows, carried, ctx, packet, now)
                && scanned == ScannedAfter(old(scanned), ctx, packet, now)
                && destinations == DestinationsAfter(old(destinations), ctx, packet, now)
                && dns == DnsAfter(old(dns), ctx, packet, now, categoryOf)
                && var before := Before(old(scanned), KeyFor(ctx, packet, now));
                   var hits := if ctx.flagScan && matcher.Some?
                               then matcher.value(Buffer(Stream(before), packet.payload)) else [];
                   ReportsPacket(old(View()), ctx, packet, now, hits, View())
    {
      hide ReportsPacket, FlowsFit, Carried, TailsFit, DestinationsFit, DnsFits, Exec, Mirrors, TrackAll, Refused,
           KeyFor, SlotOf;
      hide DestinationsAfter, DnsAfter, CaptureProtocol.RecordDrop, Bucket, Last, Stream, CountsPacket,
           Buffer;
      if !Watched(ctx) {
        return;
      }
      var key := KeyFor(ctx, packet, now);
      if key !in flows && |flows| >= MAX_TRACKED_FLOWS {
        ReportLoss(ctx.gameId, 1, Min(|packet.payload|, U64_MAX));
        return;
      }
      CountPacket(ctx, packet, now, categoryOf);
      if !ctx.flagScan {
        NothingReported(View(), ctx, packet, now);
        assert Before(old(scanned), key) + [] == Before(old(scanned), key);
        return;
      }
      ghost var counted := flows;
      ScanPacket(ctx, packet, now, matcher, key);
      TailStillCounts(old(flows), old(carried), counted, carried, ctx, packet, now, flows[key].tail);
    }
  }
}
