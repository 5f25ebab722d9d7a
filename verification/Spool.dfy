/** The durable spool itself: a bounded on-disk queue that sheds its oldest
    batches and folds what they stood for into the newest one. */
module Spool {
  import opened Options
  import opened Sums
  import opened Telemetry
  import opened LossCounters
  import opened SpoolProtocol

  datatype Entry = Entry(name: Name, size: nat)

  function SumSizes(entries: seq<Entry>): nat {
    if entries == [] then 0 else entries[0].size + SumSizes(entries[1..])
  }

  lemma {:induction false} SumSizesAppend(entries: seq<Entry>, e: Entry)
    ensures SumSizes(entries + [e]) == SumSizes(entries) + e.size
  {
    if entries == [] {
      assert entries + [e] == [e] && [e][1..] == [];
    } else {
      assert (entries + [e])[1..] == entries[1..] + [e];
      SumSizesAppend(entries[1..], e);
    }
  }

  function Names(entries: seq<Entry>): (r: seq<Name>)
    ensures |r| == |entries| && forall i :: 0 <= i < |r| ==> r[i] == entries[i].name
  {
    seq(|entries|, i requires 0 <= i < |entries| => entries[i].name)
  }

  predicate Expired(disk: Disk, name: Name, now: int)
    requires name in disk
  {
    Max(0, now - disk[name].modified) > MAX_SPOOL_AGE_MS
  }

  ghost predicate DistinctEntries(entries: seq<Entry>) {
    forall i, j :: 0 <= i < j < |entries| ==> entries[i].name != entries[j].name
  }

  ghost function EntryNames(entries: seq<Entry>): set<Name> { set e | e in entries :: e.name }

  /** The queue and the directory agree, file sizes included. */
  ghost predicate Indexes(size: TelemetryBatch -> nat, entries: seq<Entry>, disk: Disk) {
    && DistinctEntries(entries)
    && disk.Keys == EntryNames(entries)
    && forall i :: 0 <= i < |entries| ==>
         entries[i].name in disk && entries[i].size == size(disk[entries[i].name].batch)
  }

  /** File names sort by time stamp, then by batch id. */
  predicate Before(a: Name, b: Name) { a.stamp < b.stamp || (a.stamp == b.stamp && a.id < b.id) }

  ghost predicate Sorted(entries: seq<Entry>) {
    forall i, j :: 0 <= i < j < |entries| ==> Before(entries[i].name, entries[j].name)
  }

  function Insert(entries: seq<Entry>, e: Entry): seq<Entry> {
    if entries == [] || Before(e.name, entries[0].name) then [e] + entries
    else [entries[0]] + Insert(entries[1..], e)
  }

  lemma {:induction false} InsertElements(entries: seq<Entry>, e: Entry)
    ensures SumSizes(Insert(entries, e)) == SumSizes(entries) + e.size
    ensures forall x :: x in Insert(entries, e) <==> x in entries || x == e
  {
    if entries == [] || Before(e.name, entries[0].name) {
      assert ([e] + entries)[1..] == entries;
    } else {
      InsertElements(entries[1..], e);
      assert Insert(entries, e)[1..] == Insert(entries[1..], e);
      assert entries == [entries[0]] + entries[1..];
    }
  }

  lemma {:induction false} InsertSorted(entries: seq<Entry>, e: Entry)
    requires Sorted(entries) && forall x :: x in entries ==> x.name != e.name
    ensures Sorted(Insert(entries, e))
  {
    if entries != [] && !Before(e.name, entries[0].name) {
      var tail := Insert(entries[1..], e);
      assert entries[0] in entries && forall x :: x in entries[1..] ==> x in entries;
      InsertElements(entries[1..], e);
      InsertSorted(entries[1..], e);
      forall j | 0 <= j < |tail| ensures Before(entries[0].name, tail[j].name) {
        assert tail[j] in tail;
      }
    }
  }

  lemma InsertKeepsIndex(entries: seq<Entry>, e: Entry)
    requires Sorted(entries) && e.name !in EntryNames(entries)
    ensures Sorted(Insert(entries, e)) && DistinctEntries(Insert(entries, e))
    ensures EntryNames(Insert(entries, e)) == EntryNames(entries) + {e.name}
  {
    assert forall x :: x in entries ==> x.name in EntryNames(entries);
    InsertSorted(entries, e);
    InsertElements(entries, e);
  }

  /** The newest batch after the `k` oldest ones were folded into it. */
  function ReportAfter(size: TelemetryBatch -> nat, disk: Disk, queue: seq<Entry>, prepared: TelemetryBatch,
                       k: nat): TelemetryBatch
    requires k <= |queue| && forall i :: 0 <= i < |queue| ==> queue[i].name in disk
  {
    MergeAll(prepared, SourcesOf(size, disk, Names(queue[..k])))
  }

  /** Whether the queue still breaks a limit with `k` old batches shed. */
  predicate Over(size: TelemetryBatch -> nat, disk: Disk, queue: seq<Entry>, prepared: TelemetryBatch, now: int, k: nat)
    requires k <= |queue| && forall i :: 0 <= i < |queue| ==> queue[i].name in disk
  {
    || |queue| + 1 - k > MAX_SPOOL_BATCHES
    || SumSizes(queue[k..]) + size(ReportAfter(size, disk, queue, prepared, k)) > MAX_SPOOL_BYTES
    || (k < |queue| && Expired(disk, queue[k].name, now))
  }

  function SaturatingSub(a: nat, b: nat): nat { if b <= a then a - b else 0 }

  datatype Plan =
    | OverBudget
    | Shed(retained: seq<Entry>, bytes: nat, report: TelemetryBatch, removed: seq<Name>)

  /** The shed loop's variables. `retained` holds the older entries; the new
      batch, of size `targetSize`, always comes after them. */
  datatype Work = Work(durable: TelemetryBatch, targetSize: nat, retained: seq<Entry>, bytes: nat, removed: seq<Name>)

  predicate StillOver(disk: Disk, w: Work, now: int)
    requires w.retained != [] ==> w.retained[0].name in disk
  {
    || |w.retained| + 1 > MAX_SPOOL_BATCHES
    || w.bytes > MAX_SPOOL_BYTES
    || (w.retained != [] && Expired(disk, w.retained[0].name, now))
  }

  /** One turn of the shed loop: fold the oldest batch into the new one. */
  function ShedOne(size: TelemetryBatch -> nat, disk: Disk, w: Work): Work
    requires w.retained != [] && w.retained[0].name in disk
  {
    var front := w.retained[0];
    var durable := MergeDroppedBatch(w.durable, disk[front.name].batch, front.size);
    Work(durable, size(durable), w.retained[1..],
         SaturatingSub(SaturatingSub(w.bytes, front.size), w.targetSize) + size(durable),
         w.removed + [front.name])
  }

  /** The least number of oldest batches whose shedding respects every limit. */
  ghost predicate LeastShed(size: TelemetryBatch -> nat, disk: Disk, queue: seq<Entry>, prepared: TelemetryBatch,
                            now: int, k: nat)
    requires forall i :: 0 <= i < |queue| ==> queue[i].name in disk
  {
    && k <= |queue| && !Over(size, disk, queue, prepared, now, k)
    && forall j :: 0 <= j < k ==> Over(size, disk, queue, prepared, now, j)
  }

  ghost predicate IsPlan(size: TelemetryBatch -> nat, disk: Disk, queue: seq<Entry>, name: Name,
                         prepared: TelemetryBatch, now: int, plan: Plan)
    requires Indexes(size, queue, disk)
  {
    match plan
    case OverBudget => forall j :: 0 <= j <= |queue| ==> Over(size, disk, queue, prepared, now, j)
    case Shed(retained, bytes, report, removed) =>
      && LeastShed(size, disk, queue, prepared, now, |removed|)
      && removed == Names(queue[..|removed|])
      && report == ReportAfter(size, disk, queue, prepared, |removed|)
      && retained == queue[|removed|..] + [Entry(name, size(report))]
      && bytes == SumSizes(retained)
  }

  /** What the loop's variables hold at each test: `|w.removed|` batches are shed,
      and shedding fewer was not enough. */
  ghost predicate WorkIs(size: TelemetryBatch -> nat, disk: Disk, queue: seq<Entry>, prepared: TelemetryBatch,
                         now: int, w: Work)
    requires Indexes(size, queue, disk)
  {
    var k := |w.removed|;
    && k <= |queue| && w.removed == Names(queue[..k]) && w.retained == queue[k..]
    && w.durable == ReportAfter(size, disk, queue, prepared, k) && w.targetSize == size(w.durable)
    && w.bytes == SumSizes(w.retained) + w.targetSize
    && forall j :: 0 <= j < k ==> Over(size, disk, queue, prepared, now, j)
  }

  lemma WorkStarts(size: TelemetryBatch -> nat, disk: Disk, queue: seq<Entry>, prepared: TelemetryBatch, now: int)
    requires Indexes(size, queue, disk)
    ensures WorkIs(size, disk, queue, prepared, now,
                   Work(prepared, size(prepared), queue, SumSizes(queue) + size(prepared), []))
    ensures queue != [] ==> queue[0].name in disk
  {
    assert Names(queue[..0]) == [];
  }

  lemma ReportStep(size: TelemetryBatch -> nat, disk: Disk, queue: seq<Entry>, prepared: TelemetryBatch, k: nat)
    requires k < |queue| && Indexes(size, queue, disk)
    ensures ReportAfter(size, disk, queue, prepared, k + 1)
         == MergeDroppedBatch(ReportAfter(size, disk, queue, prepared, k), disk[queue[k].name].batch, queue[k].size)
  {
    var sources := SourcesOf(size, disk, Names(queue[..k + 1]));
    assert sources[..k] == SourcesOf(size, disk, Names(queue[..k]));
  }

  lemma StillOverIs(size: TelemetryBatch -> nat, disk: Disk, queue: seq<Entry>, prepared: TelemetryBatch, now: int,
                    w: Work)
    requires Indexes(size, queue, disk) && WorkIs(size, disk, queue, prepared, now, w)
    requires w.retained != [] ==> w.retained[0].name in disk
    ensures StillOver(disk, w, now) <==> Over(size, disk, queue, prepared, now, |w.removed|)
  {
  }

  lemma WorkAdvances(size: TelemetryBatch -> nat, disk: Disk, queue: seq<Entry>, prepared: TelemetryBatch, now: int,
                     w: Work)
    requires Indexes(size, queue, disk) && WorkIs(size, disk, queue, prepared, now, w)
    requires w.retained != [] && w.retained[0].name in disk && StillOver(disk, w, now)
    ensures var w' := ShedOne(size, disk, w);
            && WorkIs(size, disk, queue, prepared, now, w')
            && |w'.retained| < |w.retained| && (w'.retained != [] ==> w'.retained[0].name in disk)
  {
    hide Over, StillOver, Expired, MergeDroppedBatch, ReportAfter, EntryNames;
    var k := |w.removed|;
    StillOverIs(size, disk, queue, prepared, now, w);
    ReportStep(size, disk, queue, prepared, k);
    assert queue[k..][1..] == queue[k + 1..];
    assert queue[..k + 1] == queue[..k] + [queue[k]];
  }

  /** The loop can end in only two ways: within the limits, or with nothing left
      to shed. */
  lemma WorkEnds(size: TelemetryBatch -> nat, disk: Disk, queue: seq<Entry>, name: Name, prepared: TelemetryBatch,
                 now: int, w: Work)
    requires Indexes(size, queue, disk) && WorkIs(size, disk, queue, prepared, now, w)
    requires w.retained != [] ==> w.retained[0].name in disk && !StillOver(disk, w, now)
    ensures IsPlan(size, disk, queue, name, prepared, now,
                   if StillOver(disk, w, now) then OverBudget
                   else Shed(w.retained + [Entry(name, w.targetSize)], w.bytes, w.durable, w.removed))
  {
    StillOverIs(size, disk, queue, prepared, now, w);
    SumSizesAppend(w.retained, Entry(name, w.targetSize));
  }

  /** The shed loop. It sheds the fewest oldest batches that bring the queue
      within its limits, and gives up exactly when not even shedding all of them
      does. */
  method PlanShed(size: TelemetryBatch -> nat, disk: Disk, queue: seq<Entry>, name: Name, prepared: TelemetryBatch,
                  now: int)
    returns (plan: Plan)
    requires Indexes(size, queue, disk) && name !in disk
    ensures IsPlan(size, disk, queue, name, prepared, now, plan)
  {
    hide Indexes, WorkIs, IsPlan, StillOver, ShedOne, SumSizes;
    var w := Work(prepared, size(prepared), queue, SumSizes(queue) + size(prepared), []);
    WorkStarts(size, disk, queue, prepared, now);
    while StillOver(disk, w, now)
      invariant WorkIs(size, disk, queue, prepared, now, w)
      invariant w.retained != [] ==> w.retained[0].name in disk
      decreases |w.retained|
    {
      if w.retained == [] {
        WorkEnds(size, disk, queue, name, prepared, now, w);
        return OverBudget;
      }
      WorkAdvances(size, disk, queue, prepared, now, w);
      w := ShedOne(size, disk, w);
    }
    WorkEnds(size, disk, queue, name, prepared, now, w);
    plan := Shed(w.retained + [Entry(name, w.targetSize)], w.bytes, w.durable, w.removed);
  }

  lemma IndexesAfterShed(size: TelemetryBatch -> nat, disk: Disk, queue: seq<Entry>, name: Name, file: File, k: nat)
    requires Indexes(size, queue, disk) && name !in disk && k <= |queue|
    ensures Indexes(size, queue[k..] + [Entry(name, size(file.batch))], disk[name := file] - EntryNames(queue[..k]))
  {
    var d := disk[name := file] - EntryNames(queue[..k]);
    var es := queue[k..] + [Entry(name, size(file.batch))];
    assert queue == queue[..k] + queue[k..];
    assert EntryNames(queue) == EntryNames(queue[..k]) + EntryNames(queue[k..]);
    assert EntryNames(queue[..k]) !! EntryNames(queue[k..]);
    assert EntryNames(es) == EntryNames(queue[k..]) + {name};
    forall i | 0 <= i < |queue| - k ensures es[i].name in d {
      assert queue[k..][i] in queue[k..] && es[i] == queue[k + i];
      assert es[i].name in EntryNames(queue[k..]);
    }
  }

  /** The names of a shed prefix, as the protocol wants them. */
  lemma PrefixNames(size: TelemetryBatch -> nat, disk: Disk, queue: seq<Entry>, k: nat)
    requires Indexes(size, queue, disk) && k <= |queue|
    ensures Listed(Names(queue[..k]), disk) && Distinct(Names(queue[..k]))
    ensures (set n | n in Names(queue[..k])) == EntryNames(queue[..k])
  {
    var names := Names(queue[..k]);
    forall n | n in EntryNames(queue[..k]) ensures n in names {
      var i :| 0 <= i < k && queue[..k][i].name == n;
      assert names[i] == n;
    }
  }

  datatype Outcome = Ok | ExceedsBudget

  /** What one enqueue does to the queue and the disk. On success the queue is
      the longest admissible suffix of the old queue plus the new batch, which
      carries the folded counters, and the shed files are gone. It fails exactly
      when not even the new batch alone respects the limits, and then removes
      nothing. */
  ghost predicate EnqueueSpec(size: TelemetryBatch -> nat, disk: Disk, queue: seq<Entry>, name: Name,
                              prepared: TelemetryBatch, now: int, r: Outcome, disk': Disk, queue': seq<Entry>)
    requires Indexes(size, queue, disk)
  {
    if r.ExceedsBudget? then
      && (forall j :: 0 <= j <= |queue| ==> Over(size, disk, queue, prepared, now, j))
      && ShedTo(size, disk, queue, name, prepared, now, 0, disk', queue')
    else
      && |queue'| <= |queue| + 1
      && LeastShed(size, disk, queue, prepared, now, |queue| + 1 - |queue'|)
      && ShedTo(size, disk, queue, name, prepared, now, |queue| + 1 - |queue'|, disk', queue')
  }

  /** The queue and the disk after the `k` oldest batches were shed. */
  ghost predicate ShedTo(size: TelemetryBatch -> nat, disk: Disk, queue: seq<Entry>, name: Name,
                         prepared: TelemetryBatch, now: int, k: nat, disk': Disk, queue': seq<Entry>)
    requires k <= |queue| && Indexes(size, queue, disk)
  {
    var report := ReportAfter(size, disk, queue, prepared, k);
    && queue' == queue[k..] + [Entry(name, size(report))]
    && disk' == disk[name := File(report, now)] - EntryNames(queue[..k])
  }

  lemma ShedToIndexes(size: TelemetryBatch -> nat, disk: Disk, queue: seq<Entry>, name: Name, prepared: TelemetryBatch,
                      now: int, k: nat, disk': Disk, queue': seq<Entry>)
    requires Indexes(size, queue, disk) && name !in disk && k <= |queue|
    requires ShedTo(size, disk, queue, name, prepared, now, k, disk', queue')
    ensures Indexes(size, queue', disk')
  {
    IndexesAfterShed(size, disk, queue, name, File(ReportAfter(size, disk, queue, prepared, k), now), k);
  }

  /** With nothing shed, the queue just grows by the new batch. */
  lemma UnshedIsSpec(size: TelemetryBatch -> nat, disk: Disk, queue: seq<Entry>, name: Name, prepared: TelemetryBatch,
                     now: int, plan: Plan)
    requires Indexes(size, queue, disk) && name !in disk && IsPlan(size, disk, queue, name, prepared, now, plan)
    requires plan.OverBudget? || plan.removed == []
    ensures var queue', disk' := queue + [Entry(name, size(prepared))], disk[name := File(prepared, now)];
            && Indexes(size, queue', disk') && SumSizes(queue') == SumSizes(queue) + size(prepared)
            && EnqueueSpec(size, disk, queue, name, prepared, now,
                           if plan.OverBudget? then ExceedsBudget else Ok, disk', queue')
  {
    var queue', disk' := queue + [Entry(name, size(prepared))], disk[name := File(prepared, now)];
    assert Names(queue[..0]) == [] && queue[0..] == queue && EntryNames(queue[..0]) == {};
    assert ShedTo(size, disk, queue, name, prepared, now, 0, disk', queue');
    ShedToIndexes(size, disk, queue, name, prepared, now, 0, disk', queue');
    SumSizesAppend(queue, Entry(name, size(prepared)));
  }

  lemma ShedIsPlanned(size: TelemetryBatch -> nat, disk: Disk, queue: seq<Entry>, name: Name, prepared: TelemetryBatch,
                      now: int, plan: Plan)
    requires Indexes(size, queue, disk) && IsPlan(size, disk, queue, name, prepared, now, plan) && plan.Shed?
    ensures Listed(plan.removed, disk) && Distinct(plan.removed)
    ensures plan.report == MergeAll(prepared, SourcesOf(size, disk, plan.removed))
    ensures plan.bytes == SumSizes(plan.retained)
    ensures |plan.removed| <= |queue| && LeastShed(size, disk, queue, prepared, now, |plan.removed|)
    ensures ShedTo(size, disk, queue, name, prepared, now, |plan.removed|,
                   disk[name := File(plan.report, now)] - (set n | n in plan.removed), plan.retained)
  {
    hide Over;
    PrefixNames(size, disk, queue, |plan.removed|);
  }

  lemma ShedIsSpec(size: TelemetryBatch -> nat, disk: Disk, queue: seq<Entry>, name: Name, prepared: TelemetryBatch,
                   now: int, k: nat, disk': Disk, queue': seq<Entry>)
    requires Indexes(size, queue, disk) && name !in disk && k <= |queue|
    requires LeastShed(size, disk, queue, prepared, now, k)
    requires ShedTo(size, disk, queue, name, prepared, now, k, disk', queue')
    ensures Indexes(size, queue', disk') && EnqueueSpec(size, disk, queue, name, prepared, now, Ok, disk', queue')
  {
    hide LeastShed;
    ShedToIndexes(size, disk, queue, name, prepared, now, k, disk', queue');
  }

  /** Once the shed batches are within the limits, the new queue is not too long, not too
      large and not too old at its front. */
  lemma EnqueueBounds(size: TelemetryBatch -> nat, disk: Disk, queue: seq<Entry>, name: Name, prepared: TelemetryBatch,
                      now: int, k: nat, disk': Disk, queue': seq<Entry>)
    requires Indexes(size, queue, disk) && name !in disk && k <= |queue|
    requires !Over(size, disk, queue, prepared, now, k)
    requires ShedTo(size, disk, queue, name, prepared, now, k, disk', queue')
    ensures |queue'| <= 2_048 && SumSizes(queue') <= 64 * 1024 * 1024
    ensures queue' != [] && queue'[0].name in disk' && now - disk'[queue'[0].name].modified <= 24 * 3_600_000
  {
    hide ReportAfter, SumSizes, Names, DistinctEntries, EntryNames;
    SumSizesAppend(queue[k..], Entry(name, size(ReportAfter(size, disk, queue, prepared, k))));
    ShedToIndexes(size, disk, queue, name, prepared, now, k, disk', queue');
    if k < |queue| {
      assert queue'[0] == queue[k] && queue[k].name in disk;
    }
  }

  lemma SpecSheds(size: TelemetryBatch -> nat, disk: Disk, queue: seq<Entry>, name: Name, prepared: TelemetryBatch,
                  now: int, disk': Disk, queue': seq<Entry>) returns (k: nat)
    requires Indexes(size, queue, disk) && EnqueueSpec(size, disk, queue, name, prepared, now, Ok, disk', queue')
    ensures k <= |queue| && !Over(size, disk, queue, prepared, now, k)
    ensures ShedTo(size, disk, queue, name, prepared, now, k, disk', queue')
  {
    hide Over, ShedTo;
    k := |queue| + 1 - |queue'|;
  }

  /** A queue of the batches from `k` on and the new one is too long, too large or too
      old at its front. */
  ghost predicate BreaksLimits(size: TelemetryBatch -> nat, disk: Disk, queue: seq<Entry>, prepared: TelemetryBatch,
                               now: int, k: nat)
    requires k <= |queue| && forall i :: 0 <= i < |queue| ==> queue[i].name in disk
  {
    || |queue[k..]| + 1 > 2_048
    || SumSizes(queue[k..]) + size(ReportAfter(size, disk, queue, prepared, k)) > 64 * 1024 * 1024
    || (queue[k..] != [] && now - disk[queue[k].name].modified > 24 * 3_600_000)
  }

  /** No batch is shed that could have stayed, and an enqueue fails only if not even the
      new batch alone respects the limits. */
  lemma ShedsOnlyWhenNeeded(size: TelemetryBatch -> nat, disk: Disk, queue: seq<Entry>, name: Name,
                            prepared: TelemetryBatch, now: int, r: Outcome, disk': Disk, queue': seq<Entry>, j: nat)
    requires Indexes(size, queue, disk) && j <= |queue|
    requires EnqueueSpec(size, disk, queue, name, prepared, now, r, disk', queue')
    requires r.ExceedsBudget? || j < |queue| + 1 - |queue'|
    ensures BreaksLimits(size, disk, queue, prepared, now, j)
  {
    hide SumSizes, ReportAfter, ShedTo, DistinctEntries;
    assert Over(size, disk, queue, prepared, now, j);
  }

  /** The newest batch then carries exactly the capped sums of what was shed. */
  lemma EnqueueCounters(size: TelemetryBatch -> nat, disk: Disk, queue: seq<Entry>, name: Name,
                        prepared: TelemetryBatch, now: int, disk': Disk, queue': seq<Entry>)
    requires Indexes(size, queue, disk) && InRange(prepared) && name !in disk
    requires EnqueueSpec(size, disk, queue, name, prepared, now, Ok, disk', queue')
    ensures |queue'| <= |queue| + 1 && name in disk'
    ensures var shed := SourcesOf(size, disk, Names(queue[..|queue| + 1 - |queue'|]));
            disk'[name].batch == prepared.(
              droppedRows := Min(MAX_DROPPED_ROWS, prepared.droppedRows + SumOf(SourceClaims, shed)),
              droppedBytes := Min(MAX_DROPPED_BYTES, prepared.droppedBytes + SumOf(SourceBytes, shed)))
  {
    hide MergeAll, SumOf, LeastShed, DistinctEntries;
    var k := |queue| + 1 - |queue'|;
    MergeAllIsCappedSum(prepared, SourcesOf(size, disk, Names(queue[..k])));
    forall e | e in queue[..k] ensures e.name != name {
      assert e.name in disk;
    }
  }

  /** The new file after shedding the oldest `shed` entries keeps the offered batch. */
  ghost predicate KeepsOffered(size: TelemetryBatch -> nat, batch: TelemetryBatch, disk: Disk, shed: seq<Entry>,
                               stored: TelemetryBatch)
    requires forall i :: 0 <= i < |shed| ==> shed[i].name in disk
  {
    var sources := SourcesOf(size, disk, Names(shed));
    StoredAs(size, batch, stored, SumOf(SourceClaims, sources), SumOf(SourceBytes, sources))
  }

  lemma NewFileIs(size: TelemetryBatch -> nat, disk: Disk, queue: seq<Entry>, name: Name, prepared: TelemetryBatch,
                  now: int, k: nat, disk': Disk, queue': seq<Entry>)
    requires Indexes(size, queue, disk) && name !in disk && k <= |queue|
    requires ShedTo(size, disk, queue, name, prepared, now, k, disk', queue')
    ensures |queue'| == |queue| + 1 - k
    ensures name in disk' && disk'[name] == File(ReportAfter(size, disk, queue, prepared, k), now)
  {
    hide ReportAfter, DistinctEntries;
    forall e | e in queue[..k] ensures e.name != name {
      assert e.name in disk;
    }
  }

  lemma ReportKeepsOffered(size: TelemetryBatch -> nat, disk: Disk, queue: seq<Entry>, batch: TelemetryBatch, k: nat)
    requires Indexes(size, queue, disk) && k <= |queue|
    ensures KeepsOffered(size, batch, disk, queue[..k], ReportAfter(size, disk, queue, Prepare(size, batch), k))
  {
    hide Prepare, StoredAs, MergeAll, SumOf, DistinctEntries;
    var prepared, sources := Prepare(size, batch), SourcesOf(size, disk, Names(queue[..k]));
    PrepareAccounts(size, batch);
    MergeAllIsCappedSum(prepared, sources);
    StoredMore(size, batch, prepared, SumOf(SourceClaims, sources), SumOf(SourceBytes, sources));
  }

  lemma EnqueueKeepsOffered(size: TelemetryBatch -> nat, disk: Disk, queue: seq<Entry>, name: Name,
                            batch: TelemetryBatch, now: int, r: Outcome, disk': Disk, queue': seq<Entry>)
    requires Indexes(size, queue, disk) && name !in disk
    requires EnqueueSpec(size, disk, queue, name, Prepare(size, batch), now, r, disk', queue')
    ensures |queue'| <= |queue| + 1 && name in disk' && disk'[name].modified == now
    ensures KeepsOffered(size, batch, disk, queue[..|queue| + 1 - |queue'|], disk'[name].batch)
  {
    hide Prepare, KeepsOffered, Over, ReportAfter, ShedTo;
    var k := if r.ExceedsBudget? then 0 else |queue| + 1 - |queue'|;
    NewFileIs(size, disk, queue, name, Prepare(size, batch), now, k, disk', queue');
    ReportKeepsOffered(size, disk, queue, batch, k);
  }

  /** What goes wrong while the file of an accepted batch is removed. */
  datatype Fault = NoFault | UnlinkFails | SyncFails

  datatype AckOutcome = NoOwner | OutOfOrder | NotUnlinked | NotSynced | Removed

  /** How one upload ends: stored and acknowledged, perhaps with a fault; stored, but
      the reply is lost; refused for good; or not stored. */
  datatype Answer = Accepted(fault: Fault) | ReplyLost | Rejected | Unavailable

  datatype DrainOutcome = Done | Permanent | Transient

  lemma IndexesAfterAck(size: TelemetryBatch -> nat, disk: Disk, entries: seq<Entry>)
    requires Indexes(size, entries, disk) && entries != []
    ensures entries[0].name in disk
    ensures Indexes(size, entries[1..], disk - {entries[0].name})
    ensures SumSizes(entries) == entries[0].size + SumSizes(entries[1..])
  {
    var d := disk - {entries[0].name};
    forall n | n in d ensures n in EntryNames(entries[1..]) {
      var i :| 0 <= i < |entries| && entries[i].name == n;
      assert entries[1..][i - 1] == entries[i];
    }
  }

  /** The `k` oldest batches are gone. */
  ghost predicate RemovedTo(disk: Disk, queue: seq<Entry>, k: nat, disk': Disk, queue': seq<Entry>) {
    k <= |queue| && queue' == queue[k..] && disk' == disk - EntryNames(queue[..k])
  }

  /** The oldest batches were uploaded and acknowledged in order. */
  ghost predicate Delivered(disk: Disk, queue: seq<Entry>, answers: seq<Answer>, delivered: seq<TelemetryBatch>) {
    && |delivered| <= |queue| && |delivered| <= |answers|
    && forall i :: 0 <= i < |delivered| ==>
         && answers[i] == Accepted(NoFault) && queue[i].name in disk
         && delivered[i] == ClampLossCounters(disk[queue[i].name].batch)
  }

  ghost predicate Drained(disk: Disk, queue: seq<Entry>, answers: seq<Answer>, delivered: seq<TelemetryBatch>,
                          r: DrainOutcome, disk': Disk, queue': seq<Entry>) {
    var k := |delivered|;
    && Delivered(disk, queue, answers, delivered) && k <= 16
    && match r
       case Done => (k == 16 || k == |queue|) && RemovedTo(disk, queue, k, disk', queue')
       case Permanent =>
         k < |answers| && k < |queue| && answers[k].Rejected? && RemovedTo(disk, queue, k, disk', queue')
       case Transient =>
         && k < |answers| && k < |queue| && answers[k] != Accepted(NoFault) && !answers[k].Rejected?
         && RemovedTo(disk, queue, if answers[k] == Accepted(SyncFails) then k + 1 else k, disk', queue')
  }

  lemma DrainStarts(disk: Disk, queue: seq<Entry>)
    ensures RemovedTo(disk, queue, 0, disk, queue)
  {
    assert queue[..0] == [] && EntryNames([]) == {} && queue[0..] == queue;
  }

  lemma DrainAdvances(size: TelemetryBatch -> nat, disk: Disk, queue: seq<Entry>, k: nat, disk': Disk,
                      queue': seq<Entry>)
    requires RemovedTo(disk, queue, k, disk', queue') && Indexes(size, queue', disk') && queue' != []
    ensures k < |queue| && queue[k] == queue'[0] && queue[k].name in disk' && queue[k].name in disk
    ensures disk'[queue[k].name] == disk[queue[k].name]
    ensures RemovedTo(disk, queue, k + 1, disk' - {queue[k].name}, queue'[1..])
  {
    assert queue[..k + 1] == queue[..k] + [queue[k]] && queue[k..][1..] == queue[k + 1..] && queue'[0] == queue[k];
    assert EntryNames(queue[..k + 1]) == EntryNames(queue[..k]) + {queue[k].name};
  }

  lemma DeliverOne(disk: Disk, queue: seq<Entry>, answers: seq<Answer>, delivered: seq<TelemetryBatch>)
    requires Delivered(disk, queue, answers, delivered)
    ensures var k := |delivered|;
            k < |queue| && k < |answers| && queue[k].name in disk && answers[k] == Accepted(NoFault) ==>
              Delivered(disk, queue, answers, delivered + [ClampLossCounters(disk[queue[k].name].batch)])
  {
  }

  class DurableSpool {
    const size: TelemetryBatch -> nat  // length of the JSON encoding
    var disk: Disk
    var entries: seq<Entry>
    var bytes: nat
    ghost const origin: Disk
    ghost var run: seq<Step>           // every disk operation so far
    ghost var protocol: State

    /** Opens the directory a previous process left behind. The queue lists every
        file once, in name order. */
    constructor Open(size: TelemetryBatch -> nat, survivors: Disk, ghost origin: Disk, ghost past: seq<Step>)
      requires Survives(Exec(size, origin, past), survivors)
      ensures Valid() && this.size == size && disk == survivors && this.origin == origin
      ensures run == past + [Crash(survivors)]
      ensures forall i, j :: 0 <= i < j < |entries| ==>
                var a, b := entries[i].name, entries[j].name; a.stamp <= b.stamp && (a.stamp == b.stamp ==> a.id < b.id)
    {
      var listed := [];
      var left := survivors.Keys;
      var total := 0;
      while left != {}
        invariant left <= survivors.Keys && EntryNames(listed) == survivors.Keys - left
        invariant DistinctEntries(listed) && Sorted(listed)
        invariant forall e :: e in listed ==> e.name in survivors && e.size == size(survivors[e.name].batch)
        invariant total == SumSizes(listed)
        decreases left
      {
        var n :| n in left;
        var e := Entry(n, size(survivors[n].batch));
        InsertKeepsIndex(listed, e);
        InsertElements(listed, e);
        listed := Insert(listed, e);
        total := total + e.size;
        left := left - {n};
      }
      this.size := size;
      this.disk := survivors;
      this.entries := listed;
      this.bytes := total;
      this.origin := origin;
      this.run := past + [Crash(survivors)];
      this.protocol := Apply(size, Exec(size, origin, past), Crash(survivors));
      assert (past + [Crash(survivors)])[..|past|] == past;
    }

    ghost predicate Logged()
      reads this
    {
      protocol == Exec(size, origin, run) && protocol.cache == disk
    }

    ghost predicate Valid()
      reads this
    {
      && Logged() && protocol.phase.Idle?
      && Indexes(size, entries, disk)
      && bytes == SumSizes(entries)
    }

    /** Writes the batch, then sheds until every limit holds. */
    method Enqueue(batch: TelemetryBatch, now: int) returns (r: Outcome)
      requires Valid() && Name(now, batch.batchId) !in disk
      requires Name(now, batch.batchId) !in protocol.durable && Name(now, batch.batchId) !in protocol.accepted
      modifies this`disk, this`entries, this`bytes, this`run, this`protocol
      ensures Valid() && old(run) <= run
      ensures EnqueueSpec(size, old(disk), old(entries), Name(now, batch.batchId), Prepare(size, batch), now, r, disk,
                          entries)
      ensures var name := Name(now, batch.batchId);
              && |entries| <= |old(entries)| + 1 && name in disk && disk[name].modified == now
              && KeepsOffered(size, batch, old(disk), old(entries)[..|old(entries)| + 1 - |entries|], disk[name].batch)
      ensures r.Ok? ==> |entries| <= 2_048 && bytes <= 64 * 1024 * 1024
      ensures r.Ok? ==>
                entries != [] && entries[0].name in disk && now - disk[entries[0].name].modified <= 24 * 3_600_000
    {
      hide KeepsOffered, Exec, Prepare, Indexes, IsPlan, EnqueueSpec, MergeAll, SourcesOf, SumSizes, Over,
           ShedTo, LeastShed;
      var name := Name(now, batch.batchId);
      var prepared := Prepare(size, batch);
      var plan := PlanShed(size, disk, entries, name, prepared, now);
      WriteBatch(name, batch, prepared, now);
      entries := entries + [Entry(name, size(prepared))];
      bytes := bytes + size(prepared);
      if plan.OverBudget? || plan.removed == [] {
        Settle();
        r := if plan.OverBudget? then ExceedsBudget else Ok;
        UnshedIsSpec(size, old(disk), old(entries), name, prepared, now, plan);
      } else {
        ShedIsPlanned(size, old(disk), old(entries), name, prepared, now, plan);
        Replace(name, prepared, plan.report, plan.removed, old(disk), now);
        entries, bytes := plan.retained, plan.bytes;
        ShedIsSpec(size, old(disk), old(entries), name, prepared, now, |plan.removed|, disk, entries);
        r := Ok;
      }
      EnqueueKeepsOffered(size, old(disk), old(entries), name, batch, now, r, disk, entries);
      if r.Ok? {
        ghost var k := SpecSheds(size, old(disk), old(entries), name, prepared, now, disk, entries);
        EnqueueBounds(size, old(disk), old(entries), name, prepared, now, k, disk, entries);
      }
    }

    method Settle()
      requires Logged() && protocol.phase.Written?
      modifies this`run, this`protocol
      ensures Logged() && old(run) <= run && protocol.phase.Idle?
    {
      Log(NothingShed);
    }

    /** Renames the new batch into place and syncs the directory. */
    method WriteBatch(name: Name, batch: TelemetryBatch, prepared: TelemetryBatch, now: int)
      requires Logged() && protocol.phase.Idle? && name !in disk && name !in protocol.durable
      requires name !in protocol.accepted
      requires prepared == Prepare(size, batch)
      modifies this`disk, this`run, this`protocol
      ensures Logged() && old(run) <= run && protocol.phase == Written(name)
      ensures disk == old(disk)[name := File(prepared, now)] && StoredAs(size, batch, disk[name].batch, 0, 0)
    {
      PrepareAccounts(size, batch);
      disk := disk[name := File(prepared, now)];
      Log(WriteNew(name, batch, now));
      Log(SyncNew);
    }

    /** Makes the loss report durable, then unlinks the shed sources one by one. */
    method Replace(name: Name, prepared: TelemetryBatch, report: TelemetryBatch, removed: seq<Name>,
                   ghost listing: Disk, now: int)
      requires name !in listing && disk == listing[name := File(prepared, now)]
      requires Logged() && protocol.phase == Written(name)
      requires removed != [] && Listed(removed, listing) && Distinct(removed)
      requires report == MergeAll(prepared, SourcesOf(size, listing, removed))
      modifies this`disk, this`run, this`protocol
      ensures Logged() && old(run) <= run && protocol.phase.Idle?
      ensures disk == listing[name := File(report, now)] - (set n | n in removed)
    {
      assert SourcesOf(size, disk, removed) == SourcesOf(size, listing, removed);
      disk := disk[name := File(report, now)];
      Log(Report(removed, now));
      Log(SyncReport);
      UnlinkAll(removed);
    }

    method UnlinkAll(removed: seq<Name>)
      requires Logged() && protocol.phase == Unlinking(removed)
      modifies this`disk, this`run, this`protocol
      ensures Logged() && old(run) <= run && protocol.phase.Idle?
      ensures disk == old(disk) - (set n | n in removed)
    {
      var i := 0;
      while i < |removed|
        invariant 0 <= i <= |removed|
        invariant Logged() && old(run) <= run && protocol.phase == Unlinking(removed[i..])
        invariant disk == old(disk) - (set n | n in removed[..i])
      {
        disk := disk - {removed[i]};
        Log(Unlink);
        assert removed[..i + 1] == removed[..i] + [removed[i]];
        i := i + 1;
      }
      assert removed[..|removed|] == removed;
      Log(SyncUnlinks);
    }

    /** Records a disk operation that the caller has just performed. */
    ghost method Log(step: Step)
      requires protocol == Exec(size, origin, run) && Enabled(protocol, step)
      requires Apply(size, protocol, step).cache == disk
      modifies this`run, this`protocol
      ensures Logged() && run == old(run) + [step] && protocol == Apply(size, old(protocol), step)
    {
      run := run + [step];
      assert run[..|run| - 1] == old(run);
      protocol := Apply(size, protocol, step);
    }

    /** The upload view of the oldest batch. */
    method Front() returns (r: Option<TelemetryBatch>)
      requires Valid()
      ensures r.None? <==> entries == []
      ensures r.Some? ==> r.value == ClampLossCounters(disk[entries[0].name].batch)
    {
      if entries == [] {
        return None;
      }
      r := Some(ClampLossCounters(disk[entries[0].name].batch));
    }

    /** Removes the oldest batch, which must be the one the server accepted. If the
        unlink fails nothing changes; if the directory cannot be synced the batch is
        gone from the queue all the same. */
    method AcknowledgeFront(batchId: Uuid, fault: Fault) returns (r: AckOutcome)
      requires Logged() && Indexes(size, entries, disk) && bytes == SumSizes(entries)
      requires protocol.phase.Uploaded? && (entries != [] ==> protocol.phase.name == entries[0].name)
      modifies this`disk, this`entries, this`bytes, this`run, this`protocol
      ensures r.NoOwner? <==> old(entries) == []
      ensures r.OutOfOrder? <==> old(entries) != [] && old(disk)[old(entries)[0].name].batch.batchId != batchId
      ensures r.NotUnlinked? || r.NotSynced? || r.Removed? ==>
                && (r.NotUnlinked? <==> fault.UnlinkFails?) && (r.NotSynced? <==> fault.SyncFails?)
                && Valid() && old(run) <= run
      ensures r.NotSynced? || r.Removed? ==>
                entries == old(entries)[1..] && disk == old(disk) - {old(entries)[0].name}
      ensures r.NoOwner? || r.OutOfOrder? || r.NotUnlinked? ==>
                disk == old(disk) && entries == old(entries) && bytes == old(bytes)
      ensures r.NoOwner? || r.OutOfOrder? ==> run == old(run) && protocol == old(protocol)
    {
      if entries == [] {
        return NoOwner;
      }
      var front := entries[0];
      if disk[front.name].batch.batchId != batchId {
        return OutOfOrder;
      }
      hide Exec, Indexes, SumSizes;
      if fault.UnlinkFails? {
        Log(AckFails);
        return NotUnlinked;
      }
      PopFront();
      if fault.SyncFails? {
        Log(AckFails);
        return NotSynced;
      }
      Log(SyncAck);
      r := Removed;
    }

    /** Unlinks the oldest file and forgets its entry. */
    method PopFront()
      requires Logged() && Indexes(size, entries, disk) && bytes == SumSizes(entries) && entries != []
      requires protocol.phase == Uploaded(entries[0].name)
      modifies this`disk, this`entries, this`bytes, this`run, this`protocol
      ensures Logged() && Indexes(size, entries, disk) && bytes == SumSizes(entries) && protocol.phase.Acking?
      ensures old(run) <= run && entries == old(entries)[1..] && disk == old(disk) - {old(entries)[0].name}
    {
      IndexesAfterAck(size, disk, entries);
      hide Exec, Indexes, SumSizes;
      var front := entries[0];
      disk := disk - {front.name};
      Log(Remove);
      entries := entries[1..];
      bytes := SaturatingSub(bytes, front.size);
    }

    /** One upload of the oldest batch. */
    method DrainOne(answer: Answer) returns (batch: TelemetryBatch, r: DrainOutcome)
      requires Valid() && entries != []
      modifies this`disk, this`entries, this`bytes, this`run, this`protocol
      ensures Valid() && old(run) <= run
      ensures batch == ClampLossCounters(old(disk)[old(entries)[0].name].batch)
      ensures r.Done? <==> answer == Accepted(NoFault)
      ensures r.Permanent? <==> answer.Rejected?
      ensures if answer == Accepted(NoFault) || answer == Accepted(SyncFails)
              then entries == old(entries)[1..] && disk == old(disk) - {old(entries)[0].name}
              else entries == old(entries) && disk == old(disk)
    {
      var front := Front();
      batch := front.value;
      hide Exec, SumSizes, DistinctEntries;
      match answer {
        case Accepted(fault) =>
          Log(Upload(entries[0].name));
          var ack := AcknowledgeFront(batch.batchId, fault);
          r := if ack.Removed? then Done else Transient;
        case ReplyLost =>
          Log(Upload(entries[0].name));
          Log(AckFails);
          r := Transient;
        case Rejected => r := Permanent;
        case Unavailable => r := Transient;
      }
    }

    /** Uploads from the front, oldest first, at most sixteen batches; `answers`
        is what the network and the disk say to each attempt. Stops at the first
        attempt that is not accepted and acknowledged. */
    method DrainSpool(answers: seq<Answer>) returns (delivered: seq<TelemetryBatch>, r: DrainOutcome)
      requires Valid() && |answers| >= 16
      modifies this`disk, this`entries, this`bytes, this`run, this`protocol
      ensures Valid() && old(run) <= run
      ensures Drained(old(disk), old(entries), answers, delivered, r, disk, entries)
    {
      hide Exec, Indexes, SumSizes, Enabled;
      delivered, r := [], Done;
      var i := 0;
      DrainStarts(disk, entries);
      while i < 16
        invariant 0 <= i <= 16
        invariant Valid() && old(run) <= run && r == Done
        invariant |delivered| == i && Delivered(old(disk), old(entries), answers, delivered)
        invariant RemovedTo(old(disk), old(entries), i, disk, entries)
      {
        hide Exec, Indexes, SumSizes, RemovedTo, Delivered;
        if entries == [] {
          break;
        }
        DeliverOne(old(disk), old(entries), answers, delivered);
        DrainAdvances(size, old(disk), old(entries), i, disk, entries);
        var batch, outcome := DrainOne(answers[i]);
        if outcome != Done {
          r := outcome;
          break;
        }
        delivered := delivered + [batch];
        i := i + 1;
      }
    }
  }
}
