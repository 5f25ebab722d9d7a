/** Saturating loss counters: what a batch says about rows that were shed
    before it reached the server. */
module LossCounters {
  import opened Sums
  import opened Telemetry

  // The inclusive bounds that the server accepts.
  const MAX_DROPPED_ROWS: int := 100_000_000
  const MAX_DROPPED_BYTES: int := 0xffff_ffff

  function SaturatingAddU64(a: nat, b: nat): nat { Min(a + b, U64_MAX) }

  function SaturatingAddI64(a: int, b: int): int { Clamp(a + b, -I64_MAX - 1, I64_MAX) }

  /** Neither the conversion to a signed word nor the 64-bit addition is ever
      visible: the counter is the true sum, cut at `maximum`. */
  function BoundedLossCounter(current: int, additional: nat, maximum: nat): (r: nat)
    requires maximum < I64_MAX
    ensures r == Min(maximum, Clamp(current, 0, maximum) + additional)
  {
    var signed := if additional <= I64_MAX then additional else I64_MAX;
    Min(SaturatingAddI64(Clamp(current, 0, maximum), signed), maximum)
  }

  /** Rows a batch stands for: carried plus reported lost. A negative stored
      counter reads as the largest word. */
  function RowCount(b: TelemetryBatch): nat {
    SaturatingAddU64(Min(PayloadRows(b), U64_MAX), if b.droppedRows < 0 then U64_MAX else Min(b.droppedRows, U64_MAX))
  }

  function ClampLossCounters(b: TelemetryBatch): TelemetryBatch {
    b.(droppedRows := Clamp(b.droppedRows, 0, MAX_DROPPED_ROWS),
    droppedBytes := Clamp(b.droppedBytes, 0, MAX_DROPPED_BYTES))
  }

  function MergeLossCounters(b: TelemetryBatch, rows: nat, bytes: nat): TelemetryBatch {
    b.(droppedRows := BoundedLossCounter(b.droppedRows, rows, MAX_DROPPED_ROWS),
    droppedBytes := BoundedLossCounter(b.droppedBytes, bytes, MAX_DROPPED_BYTES))
  }

  function MergeOwnPayloadShed(b: TelemetryBatch, encodedBytes: nat): TelemetryBatch {
    MergeLossCounters(b.(flows := [], dnsProviders := [], peerNetworks := [], flagTransports := []),
                      Min(PayloadRows(b), U64_MAX), Min(encodedBytes, U64_MAX))
  }

  function DroppedBytesOf(dropped: TelemetryBatch, encodedBytes: nat): nat {
    SaturatingAddU64(Min(encodedBytes, U64_MAX), Min(Max(dropped.droppedBytes, 0), U64_MAX))
  }

  function MergeDroppedBatch(report: TelemetryBatch, dropped: TelemetryBatch, encodedBytes: nat): TelemetryBatch {
    MergeLossCounters(report, RowCount(dropped), DroppedBytesOf(dropped, encodedBytes))
  }

  /** A shed source: the batch and the size of its file. */
  datatype Source = Source(batch: TelemetryBatch, size: nat)

  /** The shed loop's effect on the report, oldest source first. */
  function MergeAll(report: TelemetryBatch, sources: seq<Source>): TelemetryBatch {
    if sources == [] then report
    else
      var last := sources[|sources| - 1];
      MergeDroppedBatch(MergeAll(report, sources[..|sources| - 1]), last.batch, last.size)
  }

  /** Every batch the spool writes has both counters in the server's range. */
  ghost predicate InRange(b: TelemetryBatch) {
    0 <= b.droppedRows <= MAX_DROPPED_ROWS && 0 <= b.droppedBytes <= MAX_DROPPED_BYTES
  }

  /** The number of rows a batch accounts for: carried plus reported lost. */
  ghost function Units(b: TelemetryBatch): nat {
    PayloadRows(b) + Max(0, b.droppedRows)
  }

  /** What folding takes a batch to account for: a negative stored counter is read
      as the largest word. */
  ghost function Claimed(b: TelemetryBatch): nat {
    PayloadRows(b) + if b.droppedRows < 0 then U64_MAX else b.droppedRows
  }

  ghost function SourceUnits(s: Source): nat { Units(s.batch) }

  ghost function SourceClaims(s: Source): nat { Claimed(s.batch) }

  ghost function SourceBytes(s: Source): nat { s.size + Max(0, s.batch.droppedBytes) }

  lemma MergeOne(report: TelemetryBatch, source: Source)
    requires InRange(report)
    ensures MergeDroppedBatch(report, source.batch, source.size) ==
            report.(droppedRows := Min(MAX_DROPPED_ROWS, report.droppedRows + SourceClaims(source)),
            droppedBytes := Min(MAX_DROPPED_BYTES, report.droppedBytes + SourceBytes(source)))
  {
    hide PayloadRows;
  }

  lemma MergedInRange(report: TelemetryBatch, source: Source)
    requires InRange(report)
    ensures InRange(MergeDroppedBatch(report, source.batch, source.size))
  {
    hide PayloadRows;
    MergeOne(report, source);
  }

  lemma CappedTwice(cap: nat, start: int, first: nat, second: nat)
    ensures Min(cap, Min(cap, start + first) + second) == Min(cap, start + (first + second))
  {
  }

  lemma {:induction false} SumOfLast(f: Source -> nat, init: seq<Source>, last: Source)
    ensures SumOf(f, init + [last]) == SumOf(f, init) + f(last)
  {
    SumOfAppend(f, init, [last]);
    SumOfOne(f, last);
  }

  /** Folding the shed sources one by one gives exactly the capped sums: both
      counters are min(cap, initial + everything shed), and nothing else of the
      report changes. */
  lemma {:induction false} MergeAllIsCappedSum(report: TelemetryBatch, sources: seq<Source>)
    requires InRange(report)
    ensures MergeAll(report, sources) ==
            report.(droppedRows := Min(MAX_DROPPED_ROWS, report.droppedRows + SumOf(SourceClaims, sources)),
            droppedBytes := Min(MAX_DROPPED_BYTES, report.droppedBytes + SumOf(SourceBytes, sources)))
    ensures InRange(MergeAll(report, sources))
  {
    if sources != [] {
      hide MergeDroppedBatch, SourceClaims, SourceBytes, SumOf, Min;
      var init, last := sources[..|sources| - 1], sources[|sources| - 1];
      assert sources == init + [last];
      MergeAllIsCappedSum(report, init);
      MergeOne(MergeAll(report, init), last);
      MergedInRange(MergeAll(report, init), last);
      SumOfLast(SourceClaims, init, last);
      SumOfLast(SourceBytes, init, last);
      CappedTwice(MAX_DROPPED_ROWS, report.droppedRows, SumOf(SourceClaims, init), SourceClaims(last));
      CappedTwice(MAX_DROPPED_BYTES, report.droppedBytes, SumOf(SourceBytes, init), SourceBytes(last));
    }
  }

  /** Hence the order in which sources are folded does not matter. */
  lemma MergeAllOrder(report: TelemetryBatch, a: seq<Source>, b: seq<Source>)
    requires InRange(report) && multiset(a) == multiset(b)
    ensures MergeAll(report, a) == MergeAll(report, b)
  {
    hide MergeAll, SumOf;
    MergeAllIsCappedSum(report, a);
    MergeAllIsCappedSum(report, b);
    SumOfPermutation(SourceClaims, a, b);
    SumOfPermutation(SourceBytes, a, b);
  }

  /** Rows lost to the cap when `sources` are folded into `report`: positive only
      if the merged counter sits at its cap. */
  ghost function MergeSpill(report: TelemetryBatch, sources: seq<Source>): nat {
    Max(0, report.droppedRows + SumOf(SourceUnits, sources) - MAX_DROPPED_ROWS)
  }

  ghost predicate NoneNegative(sources: seq<Source>) {
    forall i :: 0 <= i < |sources| ==> sources[i].batch.droppedRows >= 0
  }

  lemma {:induction false} ClaimsCoverUnits(sources: seq<Source>)
    ensures SumOf(SourceUnits, sources) <= SumOf(SourceClaims, sources)
    ensures NoneNegative(sources) ==> SumOf(SourceUnits, sources) == SumOf(SourceClaims, sources)
  {
    if sources != [] {
      ClaimsCoverUnits(sources[1..]);
    }
  }

  /** Folding loses no row except to the cap, and invents none unless a source has a
      negative counter. */
  lemma MergeAllConserves(report: TelemetryBatch, sources: seq<Source>)
    requires InRange(report)
    ensures var merged := MergeAll(report, sources);
            && Units(report) + SumOf(SourceUnits, sources) <= Units(merged) + MergeSpill(report, sources)
            && (NoneNegative(sources) ==>
                  Units(report) + SumOf(SourceUnits, sources) == Units(merged) + MergeSpill(report, sources))
            && (MergeSpill(report, sources) > 0 ==> merged.droppedRows == MAX_DROPPED_ROWS)
            && Units(merged) >= Units(report)
  {
    hide MergeAll, SumOf, NoneNegative;
    MergeAllIsCappedSum(report, sources);
    ClaimsCoverUnits(sources);
  }
}
