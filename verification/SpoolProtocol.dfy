/** The durable spool as a protocol over its disk operations.

    Directory changes reach `cache` at once and become `durable` at the next
    directory sync. A crash may keep, for every name separately, either the
    durable or the cached state of that name, so an unsynced rename or unlink may
    or may not survive. File contents are synced before they are renamed into
    place, so no file is ever seen half written. */
module SpoolProtocol {
  import opened Sums
  import opened Telemetry
  import opened LossCounters

  const MAX_SPOOL_BYTES: nat := 64 * 1024 * 1024
  const MAX_SPOOL_BATCHES: nat := 2_048
  const MAX_SPOOL_AGE_MS: nat := 24 * 60 * 60 * 1_000

  datatype Name = Name(stamp: int, id: Uuid)
  datatype File = File(batch: TelemetryBatch, modified: int)
  type Disk = map<Name, File>

  /** What the running process is in the middle of. */
  datatype Phase =
    | Idle
    | Writing(name: Name, offered: nat)            // new batch renamed, directory not synced
    | Written(target: Name)                        // new batch durable, shedding not decided
    | Reporting(target: Name, victims: seq<Name>)  // loss report renamed over the target, not synced
    | Unlinking(victims: seq<Name>)                // report durable, these sources still listed
    | Uploaded(name: Name)                         // the server accepted this batch
    | Acking                                       // its file was removed, directory not synced

  /** The counters are ghosts of the run. `enqueued` counts the rows of batches
      that became durable, `accepted` those of each file the server has accepted,
      once per file however often it was uploaded, `spilled` the rows that a
      saturated counter could not hold. `clean` holds until a crash or a failed
      acknowledgement, provided no file had a negative counter. */
  datatype State = State(durable: Disk, cache: Disk, phase: Phase,
                         enqueued: nat, accepted: map<Name, nat>, spilled: nat, capped: bool, clean: bool)

  datatype Step =
    | WriteNew(name: Name, batch: TelemetryBatch, now: int)
    | SyncNew
    | NothingShed
    | Report(victims: seq<Name>, now: int)
    | SyncReport
    | Unlink
    | SyncUnlinks
    | Upload(name: Name)
    | Remove
    | SyncAck
    | AckFails
    | Crash(survivors: Disk)

  /** The batch `enqueue` writes: counters clamped, and an oversized payload
      replaced by its own loss report. */
  function Prepare(size: TelemetryBatch -> nat, batch: TelemetryBatch): TelemetryBatch {
    var durable := ClampLossCounters(batch);
    if size(durable) > MAX_SPOOL_BYTES then MergeOwnPayloadShed(durable, size(durable)) else durable
  }

  function SourcesOf(size: TelemetryBatch -> nat, disk: Disk, names: seq<Name>): (r: seq<Source>)
    requires forall i :: 0 <= i < |names| ==> names[i] in disk
    ensures |r| == |names|
    ensures forall i :: 0 <= i < |r| ==> r[i] == Source(disk[names[i]].batch, size(disk[names[i]].batch))
  {
    seq(|names|, i requires 0 <= i < |names| => Source(disk[names[i]].batch, size(disk[names[i]].batch)))
  }

  ghost predicate Distinct(names: seq<Name>) {
    forall i, j :: 0 <= i < j < |names| ==> names[i] != names[j]
  }

  ghost predicate Listed(names: seq<Name>, disk: Disk) {
    forall i :: 0 <= i < |names| ==> names[i] in disk
  }

  ghost predicate SameAt(a: Disk, b: Disk, n: Name) {
    (n in a <==> n in b) && (n in a ==> a[n] == b[n])
  }

  /** A disk that a crash in state `s` can leave behind. */
  ghost predicate Survives(s: State, d: Disk) {
    forall n :: SameAt(d, s.durable, n) || SameAt(d, s.cache, n)
  }

  /** A crash may leave every mixture: for each name, whether its cached or its durable
      state survives is decided separately. */
  lemma EveryMixtureSurvives(s: State, kept: set<Name>)
    ensures Survives(s, (map n | n in s.cache && n in kept :: s.cache[n])
                        + (map n | n in s.durable && n !in kept :: s.durable[n]))
  {
  }

  ghost predicate Enabled(s: State, step: Step) {
    match step
    case WriteNew(name, _, _) => s.phase.Idle? && name !in s.cache && name !in s.durable && name !in s.accepted
    case SyncNew => s.phase.Writing?
    case NothingShed => s.phase.Written?
    case Report(victims, _) =>
      && s.phase.Written? && victims != [] && s.phase.target in s.cache
      && Listed(victims, s.cache) && Distinct(victims) && s.phase.target !in victims
    case SyncReport => s.phase.Reporting?
    case Unlink => s.phase.Unlinking? && s.phase.victims != []
    case SyncUnlinks => s.phase.Unlinking? && s.phase.victims == []
    case Upload(name) => s.phase.Idle? && name in s.cache
    case Remove => s.phase.Uploaded?
    case SyncAck => s.phase.Acking?
    case AckFails => s.phase.Uploaded? || s.phase.Acking?
    case Crash(survivors) => Survives(s, survivors)
  }

  ghost function Apply(size: TelemetryBatch -> nat, s: State, step: Step): State
    requires Enabled(s, step)
  {
    match step
    case WriteNew(name, batch, now) =>
      var prepared := Prepare(size, batch);
      s.(cache := s.cache[name := File(prepared, now)],
      phase := Writing(name, Units(batch)),
      spilled := s.spilled + Max(0, Units(batch) - Units(prepared)),
      capped := s.capped || prepared.droppedRows == MAX_DROPPED_ROWS)
    case SyncNew => s.(durable := s.cache, phase := Written(s.phase.name), enqueued := s.enqueued + s.phase.offered)
    case NothingShed => s.(phase := Idle)
    case Report(victims, now) =>
      var sources := SourcesOf(size, s.cache, victims);
      var report := s.cache[s.phase.target].batch;
      var merged := MergeAll(report, sources);
      s.(cache := s.cache[s.phase.target := File(merged, now)],
      phase := Reporting(s.phase.target, victims),
      spilled := s.spilled + MergeSpill(report, sources),
      capped := s.capped || merged.droppedRows == MAX_DROPPED_ROWS)
    case SyncReport => s.(durable := s.cache, phase := Unlinking(s.phase.victims))
    case Unlink => s.(cache := s.cache - {s.phase.victims[0]}, phase := Unlinking(s.phase.victims[1..]))
    case SyncUnlinks => s.(durable := s.cache, phase := Idle)
    case Upload(name) =>
      if name in s.accepted then s.(phase := Uploaded(name))
      else
        var batch := s.cache[name].batch;
        var sent := ClampLossCounters(batch);
        s.(phase := Uploaded(name), accepted := s.accepted[name := Units(sent)],
        spilled := s.spilled + Max(0, Units(batch) - Units(sent)),
        capped := s.capped || sent.droppedRows == MAX_DROPPED_ROWS)
    case Remove => s.(cache := s.cache - {s.phase.name}, phase := Acking)
    case SyncAck => s.(durable := s.cache, phase := Idle)
    case AckFails => s.(phase := Idle, clean := false)
    case Crash(survivors) =>
      s.(durable := survivors, cache := survivors, phase := Idle,
      enqueued := s.enqueued + Landed(s, survivors), clean := false)
  }

  ghost function Weights(d: Disk): map<Name, nat> { map n | n in d :: Units(d[n].batch) }

  /** Rows that the files on a disk account for. */
  ghost function OnDisk(d: Disk): nat { Total(Weights(d)) }

  /** The files that the server has not accepted yet. */
  ghost function Fresh(d: Disk, accepted: map<Name, nat>): Disk { d - accepted.Keys }

  ghost function Listing(d: Disk, names: seq<Name>): nat
    requires Listed(names, d)
  {
    if names == [] then 0 else Units(d[names[0]].batch) + Listing(d, names[1..])
  }

  /** The same over those not accepted yet. */
  ghost function FreshListing(d: Disk, accepted: map<Name, nat>, names: seq<Name>): nat
    requires Listed(names, d)
  {
    if names == [] then 0
    else (if names[0] in accepted then 0 else Units(d[names[0]].batch)) + FreshListing(d, accepted, names[1..])
  }

  /** Rows counted twice right now: sources already folded into a report whose
      files are still there. */
  ghost function Debt(s: State): nat
    requires Shape(s)
  {
    match s.phase
    case Reporting(_, victims) => FreshListing(s.cache, s.accepted, victims)
    case Unlinking(victims) => FreshListing(s.cache, s.accepted, victims)
    case _ => 0
  }

  ghost function InFlight(s: State): nat { if s.phase.Writing? then s.phase.offered else 0 }

  /** Every file of `a` other than those in `except` is in `b`, unchanged. */
  ghost predicate Kept(a: Disk, b: Disk, except: set<Name>) {
    forall n :: n in a && n !in except ==> n in b && a[n] == b[n]
  }

  ghost predicate Shape(s: State) {
    match s.phase
    case Idle => Kept(s.cache, s.durable, {})
    case Writing(name, offered) =>
      && name in s.cache && Units(s.cache[name].batch) <= offered && InRange(s.cache[name].batch)
      && name !in s.accepted && name !in s.durable && Kept(s.cache, s.durable, {name})
    case Written(target) =>
      target in s.cache && s.cache == s.durable && target !in s.accepted && InRange(s.cache[target].batch)
    case Reporting(target, victims) =>
      && target in s.cache && target in s.durable && Kept(s.cache, s.durable, {target})
      && Kept(s.durable, s.cache, {target})
      && target !in s.accepted && target !in victims && Listed(victims, s.cache) && Distinct(victims)
    case Unlinking(victims) => Kept(s.cache, s.durable, {}) && Listed(victims, s.cache) && Distinct(victims)
    case Uploaded(name) => Kept(s.cache, s.durable, {}) && name in s.cache && name in s.accepted
    case Acking => Kept(s.cache, s.durable, {})
  }

  ghost predicate NonNegative(d: Disk) { forall n :: n in d ==> d[n].batch.droppedRows >= 0 }

  /** In a clean run accepted files are gone, but for the one being acknowledged. */
  ghost predicate Tidy(s: State) {
    && NonNegative(s.cache)
    && forall n :: n in s.accepted && n in s.cache ==> s.phase == Uploaded(n)
  }

  /** The rows that are safe if the directory is `d`. */
  ghost function Safe(s: State, d: Disk): nat { Total(s.accepted) + OnDisk(Fresh(d, s.accepted)) + s.spilled }

  /** Nothing is lost: rows made durable, plus those counted twice at this instant,
      never exceed rows accepted by the server, in files it has not accepted, or
      cut off at a counter's cap; they are equal in a clean run. While a loss
      report is not durable, the disk without it is safe too. */
  ghost predicate Conserved(s: State) {
    && Shape(s)
    && s.enqueued + InFlight(s) + Debt(s) <= Safe(s, s.cache)
    && (s.clean ==> Tidy(s) && s.enqueued + InFlight(s) + Debt(s) == Safe(s, s.cache))
    && (s.phase.Reporting? ==> s.enqueued <= Safe(s, s.durable))
    && (s.spilled > 0 ==> s.capped)
  }

  // ---- disk arithmetic ----

  lemma OnDiskUpdate(d: Disk, n: Name, f: File)
    ensures OnDisk(d[n := f]) == OnDisk(d - {n}) + Units(f.batch)
    ensures n !in d ==> OnDisk(d[n := f]) == OnDisk(d) + Units(f.batch)
    ensures n in d ==> OnDisk(d) == OnDisk(d - {n}) + Units(d[n].batch)
  {
    TotalUpdate(Weights(d), n, Units(f.batch));
    assert Weights(d[n := f]) == Weights(d)[n := Units(f.batch)];
    assert Weights(d - {n}) == Weights(d) - {n};
    if n in d {
      TotalSplit(Weights(d), n);
    }
  }

  lemma FreshUpdate(d: Disk, accepted: map<Name, nat>, n: Name, f: File)
    requires n !in accepted
    ensures OnDisk(Fresh(d[n := f], accepted)) == OnDisk(Fresh(d - {n}, accepted)) + Units(f.batch)
    ensures n !in d ==> OnDisk(Fresh(d[n := f], accepted)) == OnDisk(Fresh(d, accepted)) + Units(f.batch)
    ensures n in d ==> OnDisk(Fresh(d, accepted)) == OnDisk(Fresh(d - {n}, accepted)) + Units(d[n].batch)
  {
    hide OnDisk, Units;
    OnDiskUpdate(Fresh(d, accepted), n, f);
    assert Fresh(d[n := f], accepted) == Fresh(d, accepted)[n := f];
    assert Fresh(d - {n}, accepted) == Fresh(d, accepted) - {n};
  }

  /** Once accepted, a file no longer counts as fresh. */
  lemma FreshAccept(d: Disk, accepted: map<Name, nat>, n: Name, rows: nat)
    requires n in d && n !in accepted
    ensures OnDisk(Fresh(d, accepted)) == OnDisk(Fresh(d, accepted[n := rows])) + Units(d[n].batch)
    ensures Total(accepted[n := rows]) == Total(accepted) + rows
  {
    FreshUpdate(d, accepted, n, d[n]);
    assert Fresh(d, accepted[n := rows]) == Fresh(d - {n}, accepted);
    TotalUpdate(accepted, n, rows);
  }

  lemma {:induction false} ListingFrame(a: Disk, b: Disk, accepted: map<Name, nat>, names: seq<Name>)
    requires Listed(names, a) && Listed(names, b)
    requires forall i :: 0 <= i < |names| ==> a[names[i]] == b[names[i]]
    ensures FreshListing(a, accepted, names) == FreshListing(b, accepted, names)
  {
    if names != [] {
      ListingFrame(a, b, accepted, names[1..]);
    }
  }

  lemma {:induction false} FreshListingIsLess(d: Disk, accepted: map<Name, nat>, names: seq<Name>)
    requires Listed(names, d)
    ensures FreshListing(d, accepted, names) <= Listing(d, names)
    ensures (forall i :: 0 <= i < |names| ==> names[i] !in accepted) ==>
              FreshListing(d, accepted, names) == Listing(d, names)
  {
    if names != [] {
      FreshListingIsLess(d, accepted, names[1..]);
    }
  }

  lemma {:induction false} ListingIsSourceUnits(size: TelemetryBatch -> nat, d: Disk, names: seq<Name>)
    requires Listed(names, d)
    ensures SumOf(SourceUnits, SourcesOf(size, d, names)) == Listing(d, names)
  {
    if names != [] {
      var sources := SourcesOf(size, d, names);
      ListingIsSourceUnits(size, d, names[1..]);
      assert sources[1..] == SourcesOf(size, d, names[1..]);
    }
  }

  lemma OnDiskMonotone(a: Disk, b: Disk)
    requires forall n :: n in a ==> n in b && Units(a[n].batch) <= Units(b[n].batch)
    ensures OnDisk(a) <= OnDisk(b)
  {
    TotalMonotone(Weights(a), Weights(b));
  }

  lemma FreshKept(a: Disk, b: Disk, accepted: map<Name, nat>)
    requires Kept(a, b, {})
    ensures OnDisk(Fresh(a, accepted)) <= OnDisk(Fresh(b, accepted))
  {
    OnDiskMonotone(Fresh(a, accepted), Fresh(b, accepted));
  }

  // ---- what each step keeps ----

  /** What the file of an offered batch holds, once `rows` and `bytes` of others were
      folded into it: everything that was offered, if its encoding with both counters
      in range fits the spool, and otherwise a report of how much that was. Counters
      stop at their maximum. */
  ghost predicate StoredAs(size: TelemetryBatch -> nat, offered: TelemetryBatch, stored: TelemetryBatch,
                           rows: nat, bytes: nat) {
    var keptRows := Max(0, Min(offered.droppedRows, MAX_DROPPED_ROWS));
    var keptBytes := Max(0, Min(offered.droppedBytes, MAX_DROPPED_BYTES));
    var encoded := size(offered.(droppedRows := keptRows, droppedBytes := keptBytes));
    var offeredRows :=
      |offered.flows| + |offered.dnsProviders| + |offered.peerNetworks| + |offered.flagTransports|;
    && stored.batchId == offered.batchId && stored.gameId == offered.gameId
    && if encoded <= 67_108_864
       then
         && stored.flows == offered.flows && stored.dnsProviders == offered.dnsProviders
         && stored.peerNetworks == offered.peerNetworks && stored.flagTransports == offered.flagTransports
         && stored.droppedRows == Min(MAX_DROPPED_ROWS, keptRows + rows)
         && stored.droppedBytes == Min(MAX_DROPPED_BYTES, keptBytes + bytes)
       else
         && stored.flows == [] && stored.dnsProviders == []
         && stored.peerNetworks == [] && stored.flagTransports == []
         && stored.droppedRows == Min(MAX_DROPPED_ROWS, keptRows + offeredRows + rows)
         && stored.droppedBytes == Min(MAX_DROPPED_BYTES, keptBytes + encoded + bytes)
  }

  /** What is written keeps the offered batch, and stands for no more rows than it. */
  lemma PrepareAccounts(size: TelemetryBatch -> nat, batch: TelemetryBatch)
    ensures var p := Prepare(size, batch);
            && StoredAs(size, batch, p, 0, 0)
            && InRange(p) && Units(p) <= Units(batch)
            && (Units(p) < Units(batch) ==> p.droppedRows == MAX_DROPPED_ROWS)
  {
    var c := ClampLossCounters(batch);
    assert c == batch.(droppedRows := Max(0, Min(batch.droppedRows, MAX_DROPPED_ROWS)),
                       droppedBytes := Max(0, Min(batch.droppedBytes, MAX_DROPPED_BYTES)));
  }

  /** Folding more into the file adds to its counters only. */
  lemma StoredMore(size: TelemetryBatch -> nat, offered: TelemetryBatch, stored: TelemetryBatch, rows: nat, bytes: nat)
    requires StoredAs(size, offered, stored, 0, 0)
    ensures StoredAs(size, offered,
                     stored.(droppedRows := Min(MAX_DROPPED_ROWS, stored.droppedRows + rows),
                             droppedBytes := Min(MAX_DROPPED_BYTES, stored.droppedBytes + bytes)), rows, bytes)
  {
  }

  lemma ClampAccounts(batch: TelemetryBatch)
    ensures var sent := ClampLossCounters(batch);
            && Units(sent) <= Units(batch)
            && (Units(sent) < Units(batch) ==> sent.droppedRows == MAX_DROPPED_ROWS)
  {
  }

  lemma WriteNewConserves(size: TelemetryBatch -> nat, s: State, step: Step)
    requires Conserved(s) && step.WriteNew? && Enabled(s, step)
    ensures Conserved(Apply(size, s, step))
  {
    hide OnDisk, Fresh, Prepare, Units, StoredAs;
    PrepareAccounts(size, step.batch);
    FreshUpdate(s.cache, s.accepted, step.name, File(Prepare(size, step.batch), step.now));
  }

  lemma ReportConserves(size: TelemetryBatch -> nat, s: State, step: Step)
    requires Conserved(s) && step.Report? && Enabled(s, step)
    ensures Conserved(Apply(size, s, step))
  {
    hide MergeAll, SourcesOf, OnDisk, Fresh, Units, MergeSpill, SumOf;
    var s' := Apply(size, s, step);
    var target := s.phase.target;
    var sources := SourcesOf(size, s.cache, step.victims);
    var report := s.cache[target].batch;
    MergeAllConserves(report, sources);
    MergedNonNegative(report, sources);
    ListingIsSourceUnits(size, s.cache, step.victims);
    FreshListingIsLess(s.cache, s.accepted, step.victims);
    ListingFrame(s.cache, s'.cache, s.accepted, step.victims);
    FreshUpdate(s.cache, s.accepted, target, s'.cache[target]);
    if s.clean {
      NoneNegativeSources(size, s.cache, step.victims);
    }
  }

  lemma MergedNonNegative(report: TelemetryBatch, sources: seq<Source>)
    requires InRange(report)
    ensures MergeAll(report, sources).droppedRows >= 0
  {
    MergeAllIsCappedSum(report, sources);
  }

  lemma NoneNegativeSources(size: TelemetryBatch -> nat, d: Disk, names: seq<Name>)
    requires Listed(names, d) && NonNegative(d)
    ensures NoneNegative(SourcesOf(size, d, names))
  {
  }

  lemma UnlinkConserves(size: TelemetryBatch -> nat, s: State)
    requires Conserved(s) && Enabled(s, Unlink)
    ensures Conserved(Apply(size, s, Unlink))
  {
    hide OnDisk, Units;
    var s' := Apply(size, s, Unlink);
    var victims := s.phase.victims;
    var v := victims[0];
    assert forall i :: 0 <= i < |victims[1..]| ==> victims[1..][i] == victims[i + 1];
    ListingFrame(s.cache, s'.cache, s.accepted, victims[1..]);
    if v in s.accepted {
      assert Fresh(s'.cache, s.accepted) == Fresh(s.cache, s.accepted);
    } else {
      FreshUpdate(s.cache, s.accepted, v, s.cache[v]);
    }
  }

  lemma RemoveConserves(size: TelemetryBatch -> nat, s: State)
    requires Conserved(s) && Enabled(s, Remove)
    ensures Conserved(Apply(size, s, Remove))
  {
    hide OnDisk, Units;
    assert Fresh(s.cache - {s.phase.name}, s.accepted) == Fresh(s.cache, s.accepted);
  }

  lemma UploadConserves(size: TelemetryBatch -> nat, s: State, step: Step)
    requires Conserved(s) && Enabled(s, step) && step.Upload?
    ensures Conserved(Apply(size, s, step))
  {
    hide OnDisk, Fresh, Units;
    if step.name !in s.accepted {
      var batch := s.cache[step.name].batch;
      ClampAccounts(batch);
      FreshAccept(s.cache, s.accepted, step.name, Units(ClampLossCounters(batch)));
    }
  }

  lemma SyncConserves(size: TelemetryBatch -> nat, s: State, step: Step)
    requires Conserved(s) && Enabled(s, step)
    requires
      || step.SyncNew? || step.NothingShed? || step.SyncReport?
      || step.SyncUnlinks? || step.SyncAck? || step.AckFails?
    ensures Conserved(Apply(size, s, step))
  {
    hide OnDisk, Fresh, Units;
  }

  /** Rows of a batch whose unsynced rename happened to survive. */
  ghost function Landed(s: State, survivors: Disk): nat {
    if s.phase.Writing? && s.phase.name in survivors then s.phase.offered else 0
  }

  lemma KeptSurvives(s: State, d: Disk, except: set<Name>)
    requires Kept(s.cache, s.durable, except) && Survives(s, d)
    ensures Kept(s.cache, d, except)
  {
    forall n | n in s.cache && n !in except ensures n in d && s.cache[n] == d[n] {
      assert SameAt(d, s.durable, n) || SameAt(d, s.cache, n);
    }
  }

  lemma WritingSurvives(s: State, d: Disk)
    requires Conserved(s) && Survives(s, d) && s.phase.Writing?
    ensures s.enqueued + Landed(s, d) <= Safe(s, d)
  {
    hide OnDisk, Fresh, Units;
    var name := s.phase.name;
    KeptSurvives(s, d, {name});
    assert SameAt(d, s.durable, name) || SameAt(d, s.cache, name);
    FreshUpdate(s.cache, s.accepted, name, s.cache[name]);
    FreshKept(if name in d then s.cache else s.cache - {name}, d, s.accepted);
  }

  lemma ReportingSurvives(s: State, d: Disk)
    requires Conserved(s) && Survives(s, d) && s.phase.Reporting?
    ensures s.enqueued <= Safe(s, d)
  {
    hide OnDisk, Fresh, Units;
    var target := s.phase.target;
    KeptSurvives(s, d, {target});
    assert SameAt(d, s.durable, target) || SameAt(d, s.cache, target);
    if SameAt(d, s.cache, target) {
      FreshKept(s.cache, d, s.accepted);
    } else {
      assert d[target] == s.durable[target];
      FreshKept(s.cache[target := s.durable[target]], d, s.accepted);
      FreshKept(s.durable, s.cache[target := s.durable[target]], s.accepted);
    }
  }

  /** However a crash mixes durable and cached directory entries, every row made
      durable is accepted, in a surviving file that is not, or was cut off. */
  lemma SurvivorsSuffice(s: State, d: Disk)
    requires Conserved(s) && Survives(s, d)
    ensures s.enqueued + Landed(s, d) <= Safe(s, d)
  {
    if s.phase.Writing? {
      WritingSurvives(s, d);
    } else if s.phase.Reporting? {
      ReportingSurvives(s, d);
    } else {
      hide OnDisk, Fresh, Units;
      KeptSurvives(s, d, {});
      FreshKept(s.cache, d, s.accepted);
    }
  }

  lemma CrashConserves(size: TelemetryBatch -> nat, s: State, step: Step)
    requires Conserved(s) && Enabled(s, step) && step.Crash?
    ensures Conserved(Apply(size, s, step))
  {
    hide OnDisk, Fresh, Units, Survives;
    SurvivorsSuffice(s, step.survivors);
  }

  /** Every step of the protocol, crashes included, conserves the rows. */
  lemma StepConserves(size: TelemetryBatch -> nat, s: State, step: Step)
    requires Conserved(s) && Enabled(s, step)
    ensures Conserved(Apply(size, s, step))
  {
    hide Conserved, Enabled, Apply;
    match step
    case WriteNew(_, _, _) => WriteNewConserves(size, s, step);
    case Report(_, _) => ReportConserves(size, s, step);
    case Unlink => UnlinkConserves(size, s);
    case Remove => RemoveConserves(size, s);
    case Crash(_) => CrashConserves(size, s, step);
    case Upload(_) => UploadConserves(size, s, step);
    case _ => SyncConserves(size, s, step);
  }

  // ---- whole runs ----

  /** A fresh process over any directory. */
  ghost function Start(disk: Disk): State {
    State(disk, disk, Idle, OnDisk(disk), map[], 0, false, NonNegative(disk))
  }

  /** The state after a run; steps that are not enabled are skipped. */
  ghost function Exec(size: TelemetryBatch -> nat, disk: Disk, run: seq<Step>): State {
    if run == [] then Start(disk)
    else
      var s := Exec(size, disk, run[..|run| - 1]);
      if Enabled(s, run[|run| - 1]) then Apply(size, s, run[|run| - 1]) else s
  }

  /** Runs go step by step, from a disk whose files nobody has accepted yet. */
  lemma RunsStepByStep(size: TelemetryBatch -> nat, disk: Disk, run: seq<Step>, step: Step)
    ensures var s := Exec(size, disk, []);
            && s.durable == s.cache == disk && s.phase == Idle && s.enqueued == OnDisk(disk)
            && s.accepted == map[] && s.spilled == 0 && !s.capped && (s.clean <==> NonNegative(disk))
    ensures Enabled(Exec(size, disk, run), step) ==>
              Exec(size, disk, run + [step]) == Apply(size, Exec(size, disk, run), step)
  {
    assert (run + [step])[..|run|] == run;
  }

  /** What a step does to the directory: changes reach the cache at once and the disk at
      the next sync, and a crash leaves what survives of them. */
  lemma SyncsMakeDurable(size: TelemetryBatch -> nat, s: State, step: Step)
    requires Enabled(s, step)
    ensures var s' := Apply(size, s, step);
            && (step.SyncNew? || step.SyncReport? || step.SyncUnlinks? || step.SyncAck? ==>
                  s'.durable == s'.cache == s.cache)
            && (step.WriteNew? || step.Report? || step.Unlink? || step.Remove? ==>
                  s'.durable == s.durable)
            && (step.NothingShed? || step.Upload? || step.AckFails? ==> s'.durable == s.durable && s'.cache == s.cache)
            && (step.Crash? ==> s'.durable == s'.cache == step.survivors && s'.phase == Idle && !s'.clean)
  {
  }

  /** What a step adds to the books: a batch counts once it is durable, be it by a sync or
      because a crash left it; a file counts as accepted the first time it is uploaded,
      with its counters in range; and a counter is called capped only if it is. */
  lemma StepsCount(size: TelemetryBatch -> nat, s: State, step: Step)
    requires Enabled(s, step)
    ensures var s' := Apply(size, s, step);
            && (step.WriteNew? ==> s'.phase == Writing(step.name, Units(step.batch)))
            && s'.enqueued - s.enqueued ==
               (if step.SyncNew? || (step.Crash? && s.phase.Writing? && s.phase.name in step.survivors)
                then s.phase.offered else 0)
            && s'.accepted == (if step.Upload? && step.name !in s.accepted
                               then s.accepted[step.name := Units(ClampLossCounters(s.cache[step.name].batch))]
                               else s.accepted)
            && (s'.capped && !s.capped ==>
                  || (step.WriteNew? && s'.cache[step.name].batch.droppedRows == MAX_DROPPED_ROWS)
                  || (step.Report? && s'.cache[s.phase.target].batch.droppedRows == MAX_DROPPED_ROWS)
                  || (step.Upload? && ClampLossCounters(s.cache[step.name].batch).droppedRows == MAX_DROPPED_ROWS))
  {
    hide MergeAll, Prepare, MergeSpill, PayloadRows;
  }

  lemma {:induction false} RunConserves(size: TelemetryBatch -> nat, disk: Disk, run: seq<Step>)
    ensures Conserved(Exec(size, disk, run))
  {
    if run == [] {
      assert Fresh(disk, map[]) == disk;
    } else {
      hide Conserved, Enabled, Apply;
      RunConserves(size, disk, run[..|run| - 1]);
      var s := Exec(size, disk, run[..|run| - 1]);
      if Enabled(s, run[|run| - 1]) {
        StepConserves(size, s, run[|run| - 1]);
      }
    }
  }

  /** The spool never loses a row silently. After any run of enqueues, uploads,
      acknowledgements, failed acknowledgements and crashes at any point, on any
      disk that a further crash right now could leave: all rows ever made durable
      belong to a file the server has accepted, are in a file on that disk that it
      has not, or were cut off by a counter that sat at its cap. */
  lemma NoSilentLoss(size: TelemetryBatch -> nat, disk: Disk, run: seq<Step>, survivors: Disk)
    requires Survives(Exec(size, disk, run), survivors)
    ensures var s := Exec(size, disk, run);
            && s.enqueued <= Total(s.accepted) + OnDisk(Fresh(survivors, s.accepted)) + s.spilled
            && (s.spilled > 0 ==> s.capped)
  {
    RunConserves(size, disk, run);
    SurvivorsSuffice(Exec(size, disk, run), survivors);
  }

  /** Without crashes, failed acknowledgements and negative counters nothing is
      reported twice either: between operations the books balance exactly, and no
      accepted file is left. */
  lemma CleanRunBalances(size: TelemetryBatch -> nat, disk: Disk, run: seq<Step>)
    requires NonNegative(disk)
    requires forall i :: 0 <= i < |run| ==> !run[i].Crash? && !run[i].AckFails?
    ensures var s := Exec(size, disk, run);
            s.phase.Idle? ==>
              && s.enqueued == Total(s.accepted) + OnDisk(s.cache) + s.spilled
              && (s.spilled > 0 ==> s.capped)
  {
    var s := Exec(size, disk, run);
    RunConserves(size, disk, run);
    CleanRunStaysClean(size, disk, run);
    if s.phase.Idle? {
      assert Fresh(s.cache, s.accepted) == s.cache;
    }
  }

  lemma {:induction false} CleanRunStaysClean(size: TelemetryBatch -> nat, disk: Disk, run: seq<Step>)
    requires NonNegative(disk)
    requires forall i :: 0 <= i < |run| ==> !run[i].Crash? && !run[i].AckFails?
    ensures Exec(size, disk, run).clean
  {
    if run != [] {
      CleanRunStaysClean(size, disk, run[..|run| - 1]);
    }
  }
}
