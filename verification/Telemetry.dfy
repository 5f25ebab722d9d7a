/** The telemetry batch that the event sensor captures, spools and uploads. */
module Telemetry {

  const I64_MAX: int := 0x7fff_ffff_ffff_ffff
  const U64_MAX: int := 0xffff_ffff_ffff_ffff
  const MAX_TRACKED_FLOWS: nat := 65_536
  const MAX_INGEST_ROWS: nat := 4_096

  /** Instants are in milliseconds. */
  type Instant = int

  type Uuid = nat
  type Byte = b: int | 0 <= b < 256

  datatype SensorPeer = SensorPeer(userId: Uuid, participationId: int, peerId: Uuid)

  datatype FlowBucket = FlowBucket(peer: SensorPeer, bucketStart: int, packetsUp: int, packetsDown: int,
                                   bytesUp: int, bytesDown: int, distinctDestinations: nat,
                                   connectionCount: int, activeSeconds: int)

  datatype DnsBucket = DnsBucket(peer: SensorPeer, category: int, bucketStart: int, queryCount: int, firstSeen: int,
                                 lastSeen: int)

  datatype PeerNetwork = PeerNetwork(peerId: Uuid, endpointHash: string)

  datatype FlagTransport = FlagTransport(peer: SensorPeer, owner: int, valueHash: string, transport: int,
                                         direction: int, challengeId: int, observedAt: int)

  datatype TelemetryBatch = TelemetryBatch(batchId: Uuid, gameId: int, flows: seq<FlowBucket>,
                                           dnsProviders: seq<DnsBucket>, peerNetworks: seq<PeerNetwork>,
                                           flagTransports: seq<FlagTransport>,
                                           droppedRows: int, droppedBytes: int)

  /** Rows the batch still carries. */
  function PayloadRows(b: TelemetryBatch): nat {
    |b.flows| + |b.dnsProviders| + |b.peerNetworks| + |b.flagTransports|
  }

  function EmptyBatch(batchId: Uuid, gameId: int): TelemetryBatch {
    TelemetryBatch(batchId, gameId, [], [], [], [], 0, 0)
  }
}
