/** The sensor from a sighting to the spool, as interleaved steps of two tasks:
    the capture thread collects, trims and sends batches, the upload task receives
    them, hands them to the spool and acknowledges their flag keys. */
module CaptureProtocol {
  import opened Sums
  import opened Telemetry
  import opened LossCounters
  import opened FlagDedup

  const BATCH_QUEUE: nat := 2

  datatype Drops = Drops(rows: nat, bytes: nat)

  datatype Captured = Captured(telemetry: TelemetryBatch, keys: seq<FlagKey>)

  /** What the capture thread owns and the accounting depends on. */
  datatype Core = Core(tracker: Tracker, drops: map<int, Drops>)

  function DropsOf(drops: map<int, Drops>, gameId: int): Drops {
    if gameId in drops then drops[gameId] else Drops(0, 0)
  }

  function RecordDrop(drops: map<int, Drops>, gameId: int, rows: nat, bytes: nat): map<int, Drops> {
    var entry := DropsOf(drops, gameId);
    drops[gameId := Drops(SaturatingAddU64(entry.rows, rows), SaturatingAddU64(entry.bytes, bytes))]
  }

  /** A loss is added to its own game's books, in rows and in bytes, each stopping at the
      largest word. */
  lemma RecordDropIs(drops: map<int, Drops>, gameId: int, rows: nat, bytes: nat, other: int)
    ensures var after, before := DropsOf(RecordDrop(drops, gameId, rows, bytes), other), DropsOf(drops, other);
            after == if other == gameId
                     then Drops(Min(before.rows + rows, U64_MAX), Min(before.bytes + bytes, U64_MAX)) else before
    ensures gameId in RecordDrop(drops, gameId, rows, bytes)
    ensures gameId !in drops ==> DropsOf(drops, gameId) == Drops(0, 0)
  {
  }

  function Truncate<T>(s: seq<T>, n: nat): seq<T> { if |s| <= n then s else s[..n] }

  /** At most `MAX_INGEST_ROWS` rows: flows first, flags last. */
  function Trim(b: TelemetryBatch): TelemetryBatch {
    var flows := Truncate(b.flows, MAX_INGEST_ROWS);
    var dnsProviders := Truncate(b.dnsProviders, MAX_INGEST_ROWS - |flows|);
    var peerNetworks := Truncate(b.peerNetworks, MAX_INGEST_ROWS - |flows| - |dnsProviders|);
    var flagTransports := Truncate(b.flagTransports, MAX_INGEST_ROWS - |flows| - |dnsProviders| - |peerNetworks|);
    b.(flows := flows, dnsProviders := dnsProviders, peerNetworks := peerNetworks, flagTransports := flagTransports)
  }

  /** Trimming keeps a prefix of every list, keeps as many rows as fit, and gives
      up a list only when those before it fill the batch. */
  lemma TrimKeepsWhatFits(b: TelemetryBatch)
    ensures var t := Trim(b);
            && t.gameId == b.gameId && t.droppedRows == b.droppedRows
            && PayloadRows(t) == Min(PayloadRows(b), MAX_INGEST_ROWS)
            && t.flows <= b.flows && t.dnsProviders <= b.dnsProviders
            && t.peerNetworks <= b.peerNetworks && t.flagTransports <= b.flagTransports
            && (t.flows != b.flows ==> t.dnsProviders == [])
            && (t.dnsProviders != b.dnsProviders ==> t.peerNetworks == [])
            && (t.peerNetworks != b.peerNetworks ==> t.flagTransports == [])
            && (PayloadRows(b) <= MAX_INGEST_ROWS ==> t == b)
  {}

  function U64(x: int): nat { if x < 0 then U64_MAX else Min(x, U64_MAX) }

  /** The batch as it is offered to the channel. */
  function Outgoing(b: TelemetryBatch): Captured {
    var t := Trim(b);
    Captured(t.(droppedRows := SaturatingAddI64(b.droppedRows, Min(PayloadRows(b) - PayloadRows(t), I64_MAX))),
             KeysOf(b.gameId, t.flagTransports))
  }

  /** The keys of the flags that trimming gave up. */
  function CutKeys(b: TelemetryBatch): seq<FlagKey> {
    KeysOf(b.gameId, b.flagTransports)[|Trim(b).flagTransports|..]
  }

  /** The capture thread after offering a batch that the channel took or refused. */
  function Dispatched(core: Core, b: TelemetryBatch, taken: bool): Core {
    var seen := Released(core.tracker.seen, CutKeys(b));
    if taken then core.(tracker := core.tracker.(seen := seen))
    else
      var lost := Outgoing(b);
      Core(core.tracker.(seen := Released(seen, lost.keys)),
           RecordDrop(core.drops, b.gameId, RowCount(lost.telemetry), U64(lost.telemetry.droppedBytes)))
  }

  /** Offering a batch changes no pending flag. One that the channel takes changes the
      game's losses as little as those of others; a refused one adds all it stood for,
      the rows that were trimmed included, and the bytes that it reported. */
  lemma OnlyRefusedIsLost(core: Core, b: TelemetryBatch, taken: bool, gameId: int)
    ensures Dispatched(core, b, taken).tracker.flags == core.tracker.flags
    ensures var before, after := DropsOf(core.drops, gameId), DropsOf(Dispatched(core, b, taken).drops, gameId);
            if taken || gameId != b.gameId then after == before
            else
              && after.rows == Min(before.rows + RowCount(Outgoing(b).telemetry), U64_MAX)
              && after.bytes ==
                 Min(before.bytes + (if b.droppedBytes < 0 then U64_MAX else Min(b.droppedBytes, U64_MAX)), U64_MAX)
  {
  }

  /** The capture thread after offering several batches. */
  function DispatchAll(core: Core, batches: seq<TelemetryBatch>, room: nat -> bool): Core {
    if batches == [] then core
    else
      var n := |batches| - 1;
      Dispatched(DispatchAll(core, batches[..n], room), batches[n], room(n))
  }

  lemma DispatchForgets(core: Core, b: TelemetryBatch, taken: bool)
    ensures |Dispatched(core, b, taken).tracker.seen| <= |core.tracker.seen|
  {
    var seen := Released(core.tracker.seen, CutKeys(b));
    ReleasedSize(core.tracker.seen, CutKeys(b));
    ReleasedSize(seen, Outgoing(b).keys);
  }

  /** The flags of one game, in order. */
  function FlagsOf(flags: seq<Sighting>, gameId: int): seq<FlagTransport> {
    if flags == [] then []
    else
      var last := flags[|flags| - 1];
      FlagsOf(flags[..|flags| - 1], gameId) + if last.gameId == gameId then [last.flag] else []
  }

  /** `listed` are the flags of the game's sightings, each once and in order; `picks` are
      the positions of those. */
  ghost predicate ListsFlags(flags: seq<Sighting>, gameId: int, listed: seq<FlagTransport>, picks: seq<nat>) {
    && |picks| == |listed|
    && (forall j :: 0 <= j < |picks| ==> picks[j] < |flags| && flags[picks[j]] == Sighting(gameId, listed[j]))
    && (forall j, k :: 0 <= j < k < |picks| ==> picks[j] < picks[k])
    && (forall i: nat :: i < |flags| && flags[i].gameId == gameId ==> i in picks)
  }

  lemma ListsOneMoreFlag(flags: seq<Sighting>, gameId: int, listed: seq<FlagTransport>, picks: seq<nat>)
    requires flags != [] && ListsFlags(flags[..|flags| - 1], gameId, listed, picks)
    ensures var last := flags[|flags| - 1];
            if last.gameId == gameId then ListsFlags(flags, gameId, listed + [last.flag], picks + [|flags| - 1])
            else ListsFlags(flags, gameId, listed, picks)
  {
    var n := |flags| - 1;
    assert forall i :: 0 <= i < n ==> flags[..n][i] == flags[i];
    forall i: nat | i < |flags| && flags[i].gameId == gameId && i < n ensures i in picks {
      assert flags[..n][i].gameId == gameId;
    }
    assert (picks + [n])[|picks|] == n;
  }

  lemma {:induction false} FlagsOfInOrder(flags: seq<Sighting>, gameId: int) returns (picks: seq<nat>)
    ensures ListsFlags(flags, gameId, FlagsOf(flags, gameId), picks)
  {
    if flags == [] {
      picks := [];
    } else {
      hide ListsFlags;
      var n := |flags| - 1;
      picks := FlagsOfInOrder(flags[..n], gameId);
      ListsOneMoreFlag(flags, gameId, FlagsOf(flags[..n], gameId), picks);
      if flags[n].gameId == gameId {
        picks := picks + [n];
      }
    }
  }

  ghost predicate OnePerGame(batches: seq<TelemetryBatch>) {
    forall i, j :: 0 <= i < j < |batches| ==> batches[i].gameId != batches[j].gameId
  }

  ghost predicate HasBatch(batches: seq<TelemetryBatch>, gameId: int) {
    exists i :: 0 <= i < |batches| && batches[i].gameId == gameId
  }

  /** Draining the capture state: one batch per game, which carries all pending
      flags of the game and reports all its pending drops. */
  ghost predicate Collected(core: Core, batches: seq<TelemetryBatch>) {
    && OnePerGame(batches)
    && (forall i :: 0 <= i < |batches| ==> Collects(core, batches[i]))
    && (forall g :: g in core.drops || FlagsOf(core.tracker.flags, g) != [] ==> HasBatch(batches, g))
  }

  ghost predicate Collects(core: Core, b: TelemetryBatch) {
    && b.flagTransports == FlagsOf(core.tracker.flags, b.gameId)
    && b.droppedRows == Min(DropsOf(core.drops, b.gameId).rows, I64_MAX)
    && b.droppedBytes == Min(DropsOf(core.drops, b.gameId).bytes, I64_MAX)
  }

  function Drained(core: Core): Core { Core(core.tracker.(flags := []), map[]) }

  /** `flushing` are batches collected and not yet offered, `spooling` is the batch
      the upload task is writing, `spooled` are all batches it has handed over.
      `produced` and `recorded` count, per game, the rows that entered and the
      losses that capture itself reported. */
  datatype State = State(core: Core, flushing: seq<TelemetryBatch>, channel: seq<Captured>, spooling: seq<Captured>,
                         acks: seq<seq<FlagKey>>, spooled: seq<TelemetryBatch>,
                         produced: map<int, nat>, recorded: map<int, nat>)

  datatype Step =
    | Sight(sighting: Sighting)
    | Lose(gameId: int, rows: nat, bytes: nat)
    | Collect(batches: seq<TelemetryBatch>)
    | Offer(taken: bool)
    | Receive
    | Spooled
    | Release
    | Observe(batch: TelemetryBatch)

  function Count(m: map<int, nat>, gameId: int): nat { if gameId in m then m[gameId] else 0 }

  function Bump(m: map<int, nat>, gameId: int, n: nat): map<int, nat> { m[gameId := Count(m, gameId) + n] }

  /** Rows that a collected batch adds to those already pending. */
  function FreshRows(b: TelemetryBatch): nat { |b.flows| + |b.dnsProviders| + |b.peerNetworks| }

  function BumpFresh(m: map<int, nat>, batches: seq<TelemetryBatch>): map<int, nat> {
    if batches == [] then m
    else Bump(BumpFresh(m, batches[1..]), batches[0].gameId, FreshRows(batches[0]))
  }

  ghost predicate Enabled(s: State, step: Step) {
    match step
    case Sight(_) => s.flushing == []
    case Lose(_, _, _) => s.flushing == []
    case Collect(batches) => s.flushing == [] && Collected(s.core, batches)
    case Offer(taken) => s.flushing != [] && (taken ==> |s.channel| < BATCH_QUEUE)
    case Receive => s.channel != [] && s.spooling == []
    case Spooled => s.spooling != []
    case Release => s.acks != [] && s.flushing == []
    case Observe(batch) => batch.flagTransports == [] && batch.droppedRows == 0
  }

  ghost function Apply(s: State, step: Step): State
    requires Enabled(s, step)
  {
    match step
    case Sight(sighting) =>
      s.(core := s.core.(tracker := Track(s.core.tracker, sighting)),
      produced := if TrackResultOf(s.core.tracker.seen, sighting).Queued?
                  then Bump(s.produced, sighting.gameId, 1) else s.produced)
    case Lose(gameId, rows, bytes) =>
      s.(core := s.core.(drops := RecordDrop(s.core.drops, gameId, rows, bytes)),
      recorded := Bump(s.recorded, gameId, rows))
    case Collect(batches) =>
      s.(core := Drained(s.core), flushing := batches, produced := BumpFresh(s.produced, batches))
    case Offer(taken) =>
      s.(core := Dispatched(s.core, s.flushing[0], taken), flushing := s.flushing[1..],
      channel := if taken then s.channel + [Outgoing(s.flushing[0])] else s.channel)
    case Receive => s.(spooling := [s.channel[0]], channel := s.channel[1..])
    case Spooled =>
      s.(spooling := s.spooling[1..], acks := s.acks + [s.spooling[0].keys],
      spooled := s.spooled + [s.spooling[0].telemetry])
    case Release =>
      s.(core := s.core.(tracker := s.core.tracker.(seen := Released(s.core.tracker.seen, s.acks[0]))),
      acks := s.acks[1..])
    case Observe(batch) =>
      s.(spooled := s.spooled + [batch], produced := Bump(s.produced, batch.gameId, FreshRows(batch)))
  }

  // ---- the keys in use ----

  ghost function SightingKeys(s: Sighting): multiset<FlagKey> { multiset{KeyOf(s.gameId, s.flag)} }

  ghost function BatchKeys(b: TelemetryBatch): multiset<FlagKey> { multiset(KeysOf(b.gameId, b.flagTransports)) }

  ghost function CapturedKeys(c: Captured): multiset<FlagKey> { multiset(c.keys) }

  ghost function AckKeys(keys: seq<FlagKey>): multiset<FlagKey> { multiset(keys) }

  /** Every key on its way: pending, collected, in the channel, being spooled, or
      waiting to be released. */
  ghost function Outstanding(s: State): multiset<FlagKey> {
    Gather(SightingKeys, s.core.tracker.flags) + Gather(BatchKeys, s.flushing) + Gather(CapturedKeys, s.channel)
    + Gather(CapturedKeys, s.spooling) + Gather(AckKeys, s.acks)
  }

  /** The set of seen keys is the disjoint union of the keys on their way. */
  ghost predicate Exact(s: State) {
    && multiset(s.core.tracker.seen) == Outstanding(s)
    && |s.core.tracker.seen| <= MAX_TRACKED_FLOWS
    && |s.channel| <= BATCH_QUEUE && |s.spooling| <= 1
  }

  // Splitting the pending flags by game loses and repeats none.

  function Others(flags: seq<Sighting>, gameId: int): seq<Sighting> {
    if flags == [] then []
    else if flags[0].gameId == gameId then Others(flags[1..], gameId)
    else [flags[0]] + Others(flags[1..], gameId)
  }

  lemma {:induction false} FlagsOfHead(flags: seq<Sighting>, gameId: int)
    requires flags != []
    ensures FlagsOf(flags, gameId) ==
            (if flags[0].gameId == gameId then [flags[0].flag] else []) + FlagsOf(flags[1..], gameId)
  {
    if |flags| > 1 {
      FlagsOfHead(flags[..|flags| - 1], gameId);
      assert flags[..|flags| - 1][1..] == flags[1..][..|flags| - 2];
    }
  }

  lemma {:induction false} OthersFlags(flags: seq<Sighting>, gameId: int, other: int)
    ensures FlagsOf(Others(flags, gameId), other) == if other == gameId then [] else FlagsOf(flags, other)
  {
    if flags != [] {
      hide FlagsOf;
      OthersFlags(flags[1..], gameId, other);
      FlagsOfHead(flags, other);
      if flags[0].gameId != gameId {
        FlagsOfHead(Others(flags, gameId), other);
      }
    }
  }

  lemma KeysCons(gameId: int, first: FlagTransport, rest: seq<FlagTransport>)
    ensures multiset(KeysOf(gameId, [first] + rest)) == multiset{KeyOf(gameId, first)} + multiset(KeysOf(gameId, rest))
  {
    assert KeysOf(gameId, [first] + rest) == [KeyOf(gameId, first)] + KeysOf(gameId, rest);
  }

  lemma {:induction false} OneGameApart(flags: seq<Sighting>, gameId: int)
    ensures Gather(SightingKeys, flags) ==
            multiset(KeysOf(gameId, FlagsOf(flags, gameId))) + Gather(SightingKeys, Others(flags, gameId))
  {
    if flags != [] {
      hide FlagsOf, KeysOf;
      var rest := FlagsOf(flags[1..], gameId);
      OneGameApart(flags[1..], gameId);
      FlagsOfHead(flags, gameId);
      if flags[0].gameId == gameId {
        KeysCons(gameId, flags[0].flag, rest);
      } else {
        assert [] + rest == rest;
        GatherAppend(SightingKeys, [flags[0]], Others(flags[1..], gameId));
        GatherOne(SightingKeys, flags[0]);
      }
    }
  }

  lemma {:induction false} BatchesHoldTheFlags(flags: seq<Sighting>, batches: seq<TelemetryBatch>)
    requires OnePerGame(batches)
    requires forall i :: 0 <= i < |batches| ==> batches[i].flagTransports == FlagsOf(flags, batches[i].gameId)
    requires forall g :: FlagsOf(flags, g) != [] ==> HasBatch(batches, g)
    ensures Gather(BatchKeys, batches) == Gather(SightingKeys, flags)
    decreases |batches|
  {
    if batches == [] {
      if flags != [] {
        FlagsOfHead(flags, flags[0].gameId);
        assert false;
      }
    } else {
      hide Others, FlagsOf, BatchKeys, SightingKeys, HasBatch;
      OneGameApart(flags, batches[0].gameId);
      RestHoldsOthers(flags, batches);
      assert BatchKeys(batches[0]) == multiset(KeysOf(batches[0].gameId, FlagsOf(flags, batches[0].gameId))) by {
        BatchKeysAre(batches[0]);
      }
      BatchesHoldTheFlags(Others(flags, batches[0].gameId), batches[1..]);
    }
  }

  lemma BatchKeysAre(b: TelemetryBatch)
    ensures BatchKeys(b) == multiset(KeysOf(b.gameId, b.flagTransports))
  {}

  lemma RestHoldsOthers(flags: seq<Sighting>, batches: seq<TelemetryBatch>)
    requires batches != [] && OnePerGame(batches)
    requires forall i :: 0 <= i < |batches| ==> batches[i].flagTransports == FlagsOf(flags, batches[i].gameId)
    requires forall g :: FlagsOf(flags, g) != [] ==> HasBatch(batches, g)
    ensures var others := Others(flags, batches[0].gameId);
            && OnePerGame(batches[1..])
            && (forall i :: 0 <= i < |batches[1..]| ==>
                  batches[1..][i].flagTransports == FlagsOf(others, batches[1..][i].gameId))
            && (forall h :: FlagsOf(others, h) != [] ==> HasBatch(batches[1..], h))
  {
    hide FlagsOf, Others;
    var g, rest := batches[0].gameId, batches[1..];
    forall i | 0 <= i < |rest| ensures rest[i].flagTransports == FlagsOf(Others(flags, g), rest[i].gameId) {
      assert rest[i] == batches[i + 1];
      OthersFlags(flags, g, rest[i].gameId);
    }
    forall h | FlagsOf(Others(flags, g), h) != [] ensures HasBatch(rest, h) {
      OthersFlags(flags, g, h);
      var i :| 0 <= i < |batches| && batches[i].gameId == h;
      assert rest[i - 1].gameId == h;
    }
  }

  /** The keys on their way apart from those of the batch about to be offered. */
  ghost function Elsewhere(s: State): multiset<FlagKey>
    requires s.flushing != []
  {
    Gather(SightingKeys, s.core.tracker.flags) + Gather(BatchKeys, s.flushing[1..]) + Gather(CapturedKeys, s.channel)
    + Gather(CapturedKeys, s.spooling) + Gather(AckKeys, s.acks)
  }

  lemma OfferSplits(b: TelemetryBatch)
    ensures BatchKeys(b) == multiset(Outgoing(b).keys) + multiset(CutKeys(b))
  {
    hide Trim;
    TrimKeepsWhatFits(b);
    var kept := Trim(b).flagTransports;
    assert kept == b.flagTransports[..|kept|];
    KeysSplit(b.gameId, b.flagTransports, |kept|);
  }

  lemma OfferReleases(seen: set<FlagKey>, rest: multiset<FlagKey>, b: TelemetryBatch)
    requires multiset(seen) == rest + BatchKeys(b)
    ensures multiset(Released(seen, CutKeys(b))) == rest + multiset(Outgoing(b).keys)
    ensures multiset(Released(Released(seen, CutKeys(b)), Outgoing(b).keys)) == rest
  {
    hide Released, BatchKeys, Outgoing, CutKeys;
    OfferSplits(b);
    ReleasedExactly(seen, rest + multiset(Outgoing(b).keys), CutKeys(b));
    ReleasedExactly(Released(seen, CutKeys(b)), rest, Outgoing(b).keys);
  }

  lemma OfferedNext(s: State)
    requires s.flushing != []
    ensures Outstanding(s) == Elsewhere(s) + BatchKeys(s.flushing[0])
  {
    hide BatchKeys;
  }

  lemma SentIsOutstanding(channel: seq<Captured>, sent: Captured)
    ensures Gather(CapturedKeys, channel + [sent]) == Gather(CapturedKeys, channel) + multiset(sent.keys)
  {
    GatherAppend(CapturedKeys, channel, [sent]);
    GatherOne(CapturedKeys, sent);
  }

  lemma OfferKeepsExact(s: State, taken: bool)
    requires Exact(s) && Enabled(s, Offer(taken))
    ensures Exact(Apply(s, Offer(taken)))
  {
    hide Outgoing, CutKeys, RecordDrop, Collected, Released, BatchKeys, Trim, RowCount, Gather;
    var b, seen := s.flushing[0], s.core.tracker.seen;
    OfferedNext(s);
    OfferReleases(seen, Elsewhere(s), b);
    ReleasedSize(seen, CutKeys(b));
    ReleasedSize(Released(seen, CutKeys(b)), Outgoing(b).keys);
    SentIsOutstanding(s.channel, Outgoing(b));
  }

  lemma TrackAddsOneKey(t: Tracker, s: Sighting)
    requires TrackResultOf(t.seen, s).Queued?
    ensures multiset(Track(t, s).seen) == multiset(t.seen) + SightingKeys(s)
    ensures Gather(SightingKeys, Track(t, s).flags) == Gather(SightingKeys, t.flags) + SightingKeys(s)
    ensures |Track(t, s).seen| <= MAX_TRACKED_FLOWS
  {
    GatherAppend(SightingKeys, t.flags, [s]);
    GatherOne(SightingKeys, s);
  }

  lemma SightKeepsExact(s: State, sighting: Sighting)
    requires Exact(s) && Enabled(s, Sight(sighting))
    ensures Exact(Apply(s, Sight(sighting)))
  {
    hide Collected, Track, TrackResultOf, SightingKeys;
    if TrackResultOf(s.core.tracker.seen, sighting).Queued? {
      TrackAddsOneKey(s.core.tracker, sighting);
    } else {
      TrackRefuses(s.core.tracker, sighting);
    }
  }

  lemma CollectKeepsExact(s: State, batches: seq<TelemetryBatch>)
    requires Exact(s) && Enabled(s, Collect(batches))
    ensures Exact(Apply(s, Collect(batches)))
  {
    BatchesHoldTheFlags(s.core.tracker.flags, batches);
  }

  /** Handing a batch over does not change what is outstanding. */
  lemma HandOverMoves(channel: seq<Captured>, acks: seq<seq<FlagKey>>)
    requires channel != []
    ensures Gather(CapturedKeys, channel) == Gather(CapturedKeys, [channel[0]]) + Gather(CapturedKeys, channel[1..])
    ensures Gather(AckKeys, acks + [channel[0].keys]) == Gather(AckKeys, acks) + Gather(CapturedKeys, [channel[0]])
  {
    GatherOne(CapturedKeys, channel[0]);
    GatherAppend(AckKeys, acks, [channel[0].keys]);
    GatherOne(AckKeys, channel[0].keys);
  }

  lemma HandOverKeepsExact(s: State, step: Step)
    requires Exact(s) && Enabled(s, step) && (step.Receive? || step.Spooled?)
    ensures Exact(Apply(s, step))
  {
    hide Gather, CapturedKeys, AckKeys, BatchKeys, SightingKeys, Collected;
    var t := Apply(s, step);
    GatherNothing(CapturedKeys);
    if step.Receive? {
      HandOverMoves(s.channel, s.acks);
    } else {
      HandOverMoves(s.spooling, s.acks);
      assert s.spooling == [s.spooling[0]];
    }
    assert Outstanding(t) == Outstanding(s);
  }

  lemma ReleaseKeepsExact(s: State)
    requires Exact(s) && Enabled(s, Release)
    ensures Exact(Apply(s, Release))
  {
    var rest := Gather(SightingKeys, s.core.tracker.flags) + Gather(BatchKeys, s.flushing)
                + Gather(CapturedKeys, s.channel)
    + Gather(CapturedKeys, s.spooling) + Gather(AckKeys, s.acks[1..]);
    ReleasedExactly(s.core.tracker.seen, rest, s.acks[0]);
  }

  lemma StepKeepsExact(s: State, step: Step)
    requires Exact(s) && Enabled(s, step)
    ensures Exact(Apply(s, step))
  {
    match step
    case Sight(sighting) => SightKeepsExact(s, sighting);
    case Collect(batches) => CollectKeepsExact(s, batches);
    case Offer(taken) => OfferKeepsExact(s, taken);
    case Receive => HandOverKeepsExact(s, step);
    case Spooled => HandOverKeepsExact(s, step);
    case Release => ReleaseKeepsExact(s);
    case Lose(_, _, _) =>
    case Observe(_) =>
  }

  // ---- whole runs ----

  function Start(): State {
    State(Core(Tracker([], {}), map[]), [], [], [], [], [], map[], map[])
  }

  /** The state after a run of both tasks; steps that are not enabled are skipped. */
  ghost function After(s: State, run: seq<Step>): State {
    if run == [] then s
    else
      var t := After(s, run[..|run| - 1]);
      if Enabled(t, run[|run| - 1]) then Apply(t, run[|run| - 1]) else t
  }

  ghost function Exec(run: seq<Step>): State { After(Start(), run) }

  /** Runs go step by step, from a sensor that has seen nothing. Outside of a flush any
      flag may be sighted, any loss recorded and any waiting keys released, and a flush may
      begin; in one the next batch may be refused or, if there is room, taken. Meanwhile
      the upload task may receive, spool and observe. */
  lemma RunsStepByStep(run: seq<Step>, step: Step)
    ensures Exec([]) == State(Core(Tracker([], {}), map[]), [], [], [], [], [], map[], map[])
    ensures Enabled(Exec(run), step) ==> Exec(run + [step]) == Apply(Exec(run), step)
    ensures var s := Exec(run);
            && (s.flushing == [] && (step.Sight? || step.Lose?) ==> Enabled(s, step))
            && (s.flushing == [] && s.acks != [] ==> Enabled(s, Release))
            && (s.flushing == [] && step.Collect? && Collected(s.core, step.batches) ==> Enabled(s, step))
            && (s.flushing != [] ==> Enabled(s, Offer(false)) && (|s.channel| < 2 ==> Enabled(s, Offer(true))))
            && (s.channel != [] && s.spooling == [] ==> Enabled(s, Receive))
            && (s.spooling != [] ==> Enabled(s, Spooled))
            && (&& step.Observe? && step.batch.flagTransports == [] && step.batch.droppedRows == 0 ==>
                  Enabled(s, step))
  {
    assert (run + [step])[..|run|] == run;
  }

  lemma {:induction false} RunKeepsExact(run: seq<Step>)
    ensures Exact(Exec(run))
  {
    if run != [] {
      hide Exact, Apply, Enabled;
      RunKeepsExact(run[..|run| - 1]);
      var s := Exec(run[..|run| - 1]);
      if Enabled(s, run[|run| - 1]) {
        StepKeepsExact(s, run[|run| - 1]);
      }
    } else {
      assert Outstanding(Start()) == multiset{};
    }
  }

  /** In every interleaving, a flag is on its way at most once, and a sighting is
      a duplicate exactly when its flag is on its way: so none is reported twice
      at a time, and none is suppressed for good. */
  lemma DuplicateIffOnItsWay(run: seq<Step>, sighting: Sighting)
    ensures var s := Exec(run);
            var key := KeyOf(sighting.gameId, sighting.flag);
            && Outstanding(s)[key] <= 1
            && (TrackResultOf(s.core.tracker.seen, sighting).Duplicate? <==> Outstanding(s)[key] == 1)
  {
    RunKeepsExact(run);
    var s := Exec(run);
    var key := KeyOf(sighting.gameId, sighting.flag);
    assert multiset(s.core.tracker.seen)[key] == Outstanding(s)[key];
  }

  /** No key leaks: when nothing is on its way, nothing is remembered. */
  lemma QuietForgetsAll(run: seq<Step>)
    ensures var s := Exec(run);
            s.core.tracker.flags == [] && s.flushing == [] && s.channel == [] && s.spooling == [] && s.acks == []
            ==> s.core.tracker.seen == {}
  {
    RunKeepsExact(run);
    var s := Exec(run);
    if s.core.tracker.flags == [] && s.flushing == [] && s.channel == [] && s.spooling == [] && s.acks == [] {
      assert Outstanding(s) == multiset{};
      forall k ensures k !in s.core.tracker.seen {
        assert multiset(s.core.tracker.seen)[k] == 0;
      }
    }
  }

  // ---- a flush among the upload task's steps ----

  ghost function OffersIn(s: State, run: seq<Step>): nat {
    if run == [] then 0
    else
      var init := run[..|run| - 1];
      OffersIn(s, init) + if run[|run| - 1].Offer? && Enabled(After(s, init), run[|run| - 1]) then 1 else 0
  }

  /** The capture thread only offers, its i-th offer ends as `room(i)` says, and the
      upload task does what it likes in between. */
  ghost predicate Flushes(s: State, run: seq<Step>, room: nat -> bool) {
    run == [] ||
    var init, last := run[..|run| - 1], run[|run| - 1];
    && Flushes(s, init, room)
    && (last.Offer? || last.Receive? || last.Spooled? || last.Observe?)
    && (last.Offer? && Enabled(After(s, init), last) ==> last.taken == room(OffersIn(s, init)))
  }

  lemma OneMoreOffered<T>(s: seq<T>, n: nat)
    requires n < |s|
    ensures s[n..][0] == s[n] && s[n..][1..] == s[n + 1..] && s[..n + 1][..n] == s[..n] && s[..n + 1][n] == s[n]
  {}

  lemma CoreAfter(s: State, step: Step)
    requires Enabled(s, step)
    ensures step.Offer? ==> && s.flushing != [] && Apply(s, step).flushing == s.flushing[1..]
                            && Apply(s, step).core == Dispatched(s.core, s.flushing[0], step.taken)
    ensures step.Receive? || step.Spooled? || step.Observe? ==>
              Apply(s, step).core == s.core && Apply(s, step).flushing == s.flushing
  {
    hide Dispatched, Collected, Outgoing;
  }

  /** In `t` the capture thread is where it is alone after offering `n` batches. */
  ghost predicate FlushedAlone(s: State, t: State, n: nat, room: nat -> bool) {
    && n <= |s.flushing| && t.flushing == s.flushing[n..]
    && t.core == DispatchAll(s.core, s.flushing[..n], room)
  }

  lemma FlushStep(s: State, t: State, n: nat, step: Step, room: nat -> bool)
    requires FlushedAlone(s, t, n, room) && Enabled(t, step)
    requires step.Offer? || step.Receive? || step.Spooled? || step.Observe?
    requires step.Offer? ==> step.taken == room(n)
    ensures FlushedAlone(s, Apply(t, step), if step.Offer? then n + 1 else n, room)
  {
    hide Apply, Enabled, Dispatched;
    CoreAfter(t, step);
    if step.Offer? {
      OneMoreOffered(s.flushing, n);
    }
  }

  /** However the two tasks interleave during a flush, the capture thread ends up
      where it would have alone. */
  lemma {:induction false} FlushIgnoresUpload(s: State, run: seq<Step>, room: nat -> bool)
    requires Flushes(s, run, room)
    ensures FlushedAlone(s, After(s, run), OffersIn(s, run), room)
  {
    if run != [] {
      hide Apply, Enabled, FlushedAlone;
      var init, last := run[..|run| - 1], run[|run| - 1];
      FlushIgnoresUpload(s, init, room);
      if Enabled(After(s, init), last) {
        FlushStep(s, After(s, init), OffersIn(s, init), last, room);
      }
    }
  }
}
