/** What the capture thread counts per flow, and the one row per peer and bucket
    that its completed flows add up to. */
module FlowAggregation {
  import opened Sums
  import opened Telemetry

  const I32_MAX: int := 0x7fff_ffff
  const FLOW_BUCKET_SECONDS: nat := 5 * 60
  const DNS_BUCKET_SECONDS: nat := 15 * 60
  const MAX_DESTINATIONS_PER_BUCKET: nat := 1_024

  datatype FlowKey = FlowKey(gameId: int, peerId: Uuid, remote: nat, remotePort: nat, protocol: nat, bucket: int)

  datatype FlowState = FlowState(peer: SensorPeer, emitBehavior: bool, packetsUp: nat, packetsDown: nat,
                                 bytesUp: nat, bytesDown: nat, connectionCount: nat,
                                 firstSeen: Instant, lastSeen: Instant, tail: seq<Byte>)

  datatype DnsKey = DnsKey(gameId: int, peerId: Uuid, category: int, bucket: int)

  datatype DnsState = DnsState(peer: SensorPeer, count: nat, first: Instant, last: Instant)

  /** One row of behaviour telemetry is one of these. */
  datatype Slot = Slot(gameId: int, peerId: Uuid, bucket: int)

  /** The start, in seconds, of the bucket that holds an instant. */
  function Bucket(now: Instant, seconds: nat): int
    requires seconds > 0
  {
    now / 1_000 / seconds * seconds
  }

  function SlotOf(key: FlowKey): Slot { Slot(key.gameId, key.peerId, key.bucket) }

  // ---- aggregating flows ----

  /** The counters that a flow and its row share. */
  datatype Meter = PacketsUp | PacketsDown | BytesUp | BytesDown | Connections

  function Reading(flow: FlowState, m: Meter): nat {
    match m
    case PacketsUp => flow.packetsUp
    case PacketsDown => flow.packetsDown
    case BytesUp => flow.bytesUp
    case BytesDown => flow.bytesDown
    case Connections => flow.connectionCount
  }

  function RowReading(row: FlowBucket, m: Meter): int {
    match m
    case PacketsUp => row.packetsUp
    case PacketsDown => row.packetsDown
    case BytesUp => row.bytesUp
    case BytesDown => row.bytesDown
    case Connections => row.connectionCount
  }

  function Cap(m: Meter): nat { if m.Connections? then I32_MAX else I64_MAX }

  function SaturatingAdd(a: int, b: int, m: Meter): int { Min(a + b, Cap(m)) }

  /** Whole seconds a flow was active, within its bucket. */
  function ActiveSeconds(flow: FlowState): nat {
    Clamp(Seconds(flow.lastSeen - flow.firstSeen) + 1, 1, FLOW_BUCKET_SECONDS)
  }

  /** Whole seconds in a span, rounded toward zero. */
  function Seconds(millis: int): int { if millis >= 0 then millis / 1_000 else -((-millis) / 1_000) }

  function NewRow(slot: Slot, peer: SensorPeer): FlowBucket { FlowBucket(peer, slot.bucket, 0, 0, 0, 0, 0, 0, 0) }

  function Fold(row: FlowBucket, flow: FlowState): FlowBucket {
    row.(packetsUp := SaturatingAdd(row.packetsUp, flow.packetsUp, PacketsUp),
    packetsDown := SaturatingAdd(row.packetsDown, flow.packetsDown, PacketsDown),
    bytesUp := SaturatingAdd(row.bytesUp, flow.bytesUp, BytesUp),
    bytesDown := SaturatingAdd(row.bytesDown, flow.bytesDown, BytesDown),
    connectionCount := SaturatingAdd(row.connectionCount, flow.connectionCount, Connections),
    activeSeconds := Max(row.activeSeconds, ActiveSeconds(flow)))
  }

  /** `key` is one of the behaviour flows in `done` that belong to `slot`. */
  predicate Contributes(flows: map<FlowKey, FlowState>, done: set<FlowKey>, slot: Slot, key: FlowKey) {
    key in done && key in flows && flows[key].emitBehavior && SlotOf(key) == slot
  }

  ghost function Part(flows: map<FlowKey, FlowState>, done: set<FlowKey>, slot: Slot, m: Meter): map<FlowKey, nat> {
    map key | key in flows && Contributes(flows, done, slot, key) :: Reading(flows[key], m)
  }

  /** Every counter of the row is the sum over the slot's flows, cut at the counter's
      width, its activity is that of the longest flow, and it names the peer as one
      of them does. */
  ghost predicate AddsUp(flows: map<FlowKey, FlowState>, done: set<FlowKey>, slot: Slot, row: FlowBucket) {
    && row.peer.peerId == slot.peerId && row.bucketStart == slot.bucket
    && (exists key :: Contributes(flows, done, slot, key) && flows[key].peer == row.peer)
    && (forall m :: RowReading(row, m) == Min(Cap(m), Total(Part(flows, done, slot, m))))
    && (forall key :: Contributes(flows, done, slot, key) ==> ActiveSeconds(flows[key]) <= row.activeSeconds)
    && (exists key :: Contributes(flows, done, slot, key) && ActiveSeconds(flows[key]) == row.activeSeconds)
  }

  ghost predicate Reported(flows: map<FlowKey, FlowState>, done: set<FlowKey>, slot: Slot) {
    exists key :: Contributes(flows, done, slot, key)
  }

  ghost predicate Aggregated(flows: map<FlowKey, FlowState>, done: set<FlowKey>, rows: map<Slot, FlowBucket>) {
    && (forall slot :: slot in rows <==> Reported(flows, done, slot))
    && (forall slot :: slot in rows ==> AddsUp(flows, done, slot, rows[slot]) && rows[slot].distinctDestinations == 0)
  }

  lemma PartStep(flows: map<FlowKey, FlowState>, done: set<FlowKey>, key: FlowKey, slot: Slot, m: Meter)
    requires key in flows && key !in done
    ensures Total(Part(flows, done + {key}, slot, m)) ==
            Total(Part(flows, done, slot, m)) +
            if flows[key].emitBehavior && SlotOf(key) == slot then Reading(flows[key], m) else 0
  {
    var before, after := Part(flows, done, slot, m), Part(flows, done + {key}, slot, m);
    if flows[key].emitBehavior && SlotOf(key) == slot {
      assert after == before[key := Reading(flows[key], m)];
      TotalUpdate(before, key, Reading(flows[key], m));
    } else {
      assert after == before;
    }
  }

  lemma NoPart(flows: map<FlowKey, FlowState>, done: set<FlowKey>, slot: Slot, m: Meter)
    requires !Reported(flows, done, slot)
    ensures Total(Part(flows, done, slot, m)) == 0
  {
    assert Part(flows, done, slot, m) == map[];
  }

  lemma FoldReads(row: FlowBucket, flow: FlowState, m: Meter)
    ensures RowReading(Fold(row, flow), m) == Min(RowReading(row, m) + Reading(flow, m), Cap(m))
  {}

  lemma OtherSlotsUntouched(flows: map<FlowKey, FlowState>, done: set<FlowKey>, key: FlowKey, slot: Slot,
                            row: FlowBucket)
    requires key in flows && key !in done && (!flows[key].emitBehavior || SlotOf(key) != slot)
    requires AddsUp(flows, done, slot, row)
    ensures AddsUp(flows, done + {key}, slot, row)
  {
    forall m ensures RowReading(row, m) == Min(Cap(m), Total(Part(flows, done + {key}, slot, m))) {
      PartStep(flows, done, key, slot, m);
    }
    var named :| Contributes(flows, done, slot, named) && flows[named].peer == row.peer;
    assert Contributes(flows, done + {key}, slot, named);
    var longest :| Contributes(flows, done, slot, longest) && ActiveSeconds(flows[longest]) == row.activeSeconds;
    assert Contributes(flows, done + {key}, slot, longest);
    forall k | Contributes(flows, done + {key}, slot, k) ensures ActiveSeconds(flows[k]) <= row.activeSeconds {
      assert Contributes(flows, done, slot, k);
    }
  }

  /** The row that a new behaviour flow is folded into: what its slot has so far, or
      an empty one. */
  ghost predicate RowSoFar(flows: map<FlowKey, FlowState>, done: set<FlowKey>, key: FlowKey, row: FlowBucket) {
    && key in flows && key !in done && flows[key].emitBehavior && flows[key].peer.peerId == key.peerId
    && if Reported(flows, done, SlotOf(key)) then AddsUp(flows, done, SlotOf(key), row)
       else row == NewRow(SlotOf(key), flows[key].peer)
  }

  lemma FoldMeter(flows: map<FlowKey, FlowState>, done: set<FlowKey>, key: FlowKey, row: FlowBucket, m: Meter)
    requires RowSoFar(flows, done, key, row)
    ensures RowReading(Fold(row, flows[key]), m) == Min(Cap(m), Total(Part(flows, done + {key}, SlotOf(key), m)))
  {
    hide Fold, Part, Reported, Reading;
    var slot := SlotOf(key);
    PartStep(flows, done, key, slot, m);
    FoldReads(row, flows[key], m);
    if !Reported(flows, done, slot) {
      NoPart(flows, done, slot, m);
    }
  }

  lemma FoldPeer(flows: map<FlowKey, FlowState>, done: set<FlowKey>, key: FlowKey, row: FlowBucket)
    requires RowSoFar(flows, done, key, row)
    ensures var folded := Fold(row, flows[key]);
            && folded.peer.peerId == key.peerId && folded.bucketStart == key.bucket
            && exists k :: Contributes(flows, done + {key}, SlotOf(key), k) && flows[k].peer == folded.peer
  {
    hide RowReading, Part;
    assert Contributes(flows, done + {key}, SlotOf(key), key);
    if Reported(flows, done, SlotOf(key)) {
      var named :| Contributes(flows, done, SlotOf(key), named) && flows[named].peer == row.peer;
      assert Contributes(flows, done + {key}, SlotOf(key), named);
    }
  }

  lemma FoldActivity(flows: map<FlowKey, FlowState>, done: set<FlowKey>, key: FlowKey, row: FlowBucket)
    requires RowSoFar(flows, done, key, row)
    ensures forall k :: Contributes(flows, done + {key}, SlotOf(key), k) ==>
              ActiveSeconds(flows[k]) <= Fold(row, flows[key]).activeSeconds
    ensures exists k :: Contributes(flows, done + {key}, SlotOf(key), k)
                        && ActiveSeconds(flows[k]) == Fold(row, flows[key]).activeSeconds
  {
    hide RowReading, Part, ActiveSeconds;
    var slot, folded := SlotOf(key), Fold(row, flows[key]);
    assert Contributes(flows, done + {key}, slot, key);
    forall k | Contributes(flows, done + {key}, slot, k) ensures ActiveSeconds(flows[k]) <= folded.activeSeconds {
      assert k == key || Contributes(flows, done, slot, k);
    }
    if folded.activeSeconds != ActiveSeconds(flows[key]) {
      var k :| Contributes(flows, done, slot, k) && ActiveSeconds(flows[k]) == row.activeSeconds;
      assert Contributes(flows, done + {key}, slot, k);
    }
  }

  lemma FoldSums(flows: map<FlowKey, FlowState>, done: set<FlowKey>, key: FlowKey, row: FlowBucket)
    requires RowSoFar(flows, done, key, row)
    ensures AddsUp(flows, done + {key}, SlotOf(key), Fold(row, flows[key]))
  {
    assert key in flows;
    hide RowSoFar, RowReading, Part, Contributes, ActiveSeconds, Fold, Cap;
    forall m
      ensures RowReading(Fold(row, flows[key]), m) == Min(Cap(m), Total(Part(flows, done + {key}, SlotOf(key), m)))
    {
      FoldMeter(flows, done, key, row, m);
    }
    FoldPeer(flows, done, key, row);
    FoldActivity(flows, done, key, row);
  }

  lemma ReportedStep(flows: map<FlowKey, FlowState>, done: set<FlowKey>, key: FlowKey, slot: Slot)
    requires key in flows && key !in done
    ensures Reported(flows, done + {key}, slot) <==>
            Reported(flows, done, slot) || (flows[key].emitBehavior && SlotOf(key) == slot)
  {
    if Reported(flows, done, slot) {
      var k :| Contributes(flows, done, slot, k);
      assert Contributes(flows, done + {key}, slot, k);
    }
    if flows[key].emitBehavior && SlotOf(key) == slot {
      assert Contributes(flows, done + {key}, slot, key);
    }
    if Reported(flows, done + {key}, slot) {
      var k :| Contributes(flows, done + {key}, slot, k);
      assert k == key || Contributes(flows, done, slot, k);
    }
  }

  /** The rows once one more completed flow is folded into its slot's row; a flow that
      is not reported changes none. */
  function WithFlow(rows: map<Slot, FlowBucket>, key: FlowKey, flow: FlowState): map<Slot, FlowBucket> {
    if flow.emitBehavior then
      var slot := SlotOf(key);
      rows[slot := Fold(if slot in rows then rows[slot] else NewRow(slot, flow.peer), flow)]
    else rows
  }

  lemma AggregateStep(flows: map<FlowKey, FlowState>, done: set<FlowKey>, rows: map<Slot, FlowBucket>, key: FlowKey)
    requires key in flows && key !in done && flows[key].peer.peerId == key.peerId && Aggregated(flows, done, rows)
    ensures Aggregated(flows, done + {key}, WithFlow(rows, key, flows[key]))
  {
    hide AddsUp, Reported;
    var mine := SlotOf(key);
    forall slot ensures Reported(flows, done + {key}, slot) <==>
                        Reported(flows, done, slot) || (flows[key].emitBehavior && mine == slot) {
      ReportedStep(flows, done, key, slot);
    }
    forall slot | slot in rows && (!flows[key].emitBehavior || mine != slot)
      ensures AddsUp(flows, done + {key}, slot, rows[slot])
    {
      OtherSlotsUntouched(flows, done, key, slot, rows[slot]);
    }
    if flows[key].emitBehavior {
      FoldSums(flows, done, key, if mine in rows then rows[mine] else NewRow(mine, flows[key].peer));
    }
  }
}
