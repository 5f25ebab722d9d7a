/** Capture and spool together: from a packet to the server. */
module EndToEnd {
  import opened Sums
  import opened Telemetry
  import opened LossCounters
  import Capture = CaptureProtocol
  import opened CaptureAccounting
  import Spool = SpoolProtocol

  /** The batches that a run of the spool was given to write. */
  ghost function Offered(size: TelemetryBatch -> nat, disk: Spool.Disk, run: seq<Spool.Step>): seq<TelemetryBatch> {
    if run == [] then []
    else
      var init, last := run[..|run| - 1], run[|run| - 1];
      Offered(size, disk, init) +
      if last.WriteNew? && Spool.Enabled(Spool.Exec(size, disk, init), last) then [last.batch] else []
  }

  ghost function UnitsOf(b: TelemetryBatch): nat { Units(b) }

  /** The process lives through the run. */
  ghost predicate OneLife(run: seq<Spool.Step>) { forall i :: 0 <= i < |run| ==> !run[i].Crash? }

  ghost predicate Acknowledged(run: seq<Spool.Step>) { forall i :: 0 <= i < |run| ==> !run[i].AckFails? }

  lemma EnqueuedStep(size: TelemetryBatch -> nat, s: Spool.State, step: Spool.Step)
    requires Spool.Enabled(s, step) && !step.Crash?
    ensures var s' := Spool.Apply(size, s, step);
            s'.enqueued + Spool.InFlight(s') ==
            s.enqueued + Spool.InFlight(s) + if step.WriteNew? then UnitsOf(step.batch) else 0
  {
    hide Spool.Prepare, MergeAll, MergeSpill, PayloadRows;
  }

  lemma {:induction false} OfferedIsEnqueued(size: TelemetryBatch -> nat, disk: Spool.Disk, run: seq<Spool.Step>)
    requires OneLife(run)
    ensures var s := Spool.Exec(size, disk, run);
            s.enqueued + Spool.InFlight(s) == Spool.OnDisk(disk) + SumOf(UnitsOf, Offered(size, disk, run))
  {
    if run != [] {
      hide Spool.OnDisk, UnitsOf, Spool.Apply, Spool.Enabled, SumOf, Spool.InFlight;
      var init, last := run[..|run| - 1], run[|run| - 1];
      OfferedIsEnqueued(size, disk, init);
      if Spool.Enabled(Spool.Exec(size, disk, init), last) {
        EnqueuedStep(size, Spool.Exec(size, disk, init), last);
        SumOfAppend(UnitsOf, Offered(size, disk, init), if last.WriteNew? then [last.batch] else []);
        if last.WriteNew? {
          SumOfOne(UnitsOf, last.batch);
        }
      }
      assert Offered(size, disk, init) + [] == Offered(size, disk, init);
    }
  }

  // ---- summing over games ----

  ghost function HandedOver(games: set<int>, batches: seq<TelemetryBatch>): map<int, nat> {
    map g | g in games :: SumOf(BatchRows(g), batches)
  }

  lemma {:induction false} GamesShareBatches(games: set<int>, batches: seq<TelemetryBatch>)
    requires forall i :: 0 <= i < |batches| ==> batches[i].gameId in games
    ensures Total(HandedOver(games, batches)) == SumOf(UnitsOf, batches)
  {
    if batches == [] {
      TotalOfZeros(HandedOver(games, batches));
    } else {
      var own := map g | g in games :: BatchRows(g)(batches[0]);
      var mine := batches[0].gameId;
      TotalSplit(own, mine);
      TotalOfZeros(own - {mine});
      GamesShareBatches(games, batches[1..]);
      TotalAdds(own, HandedOver(games, batches[1..]), HandedOver(games, batches));
    }
  }

  /** The batch that the upload task is inside `enqueue` with, if it has begun to
      write it. */
  ghost function Writing(c: Capture.State, offered: seq<TelemetryBatch>): seq<TelemetryBatch> {
    if c.spooling != [] && offered == c.spooled + [c.spooling[0].telemetry] then [c.spooling[0].telemetry] else []
  }

  /** Over one life of the process, however its two tasks interleave and whatever
      is trimmed, refused, shed, or uploaded again because its acknowledgement was
      lost: every row that entered, and every row that was on disk before, is in the
      sensor, in a file the server has accepted, in one it has not, or was cut off
      by a counter that sat at its cap. A batch that is just being written is in the
      sensor and in the spool, and is counted on both sides. If every acknowledgement
      went through and no file had a negative counter, no other row is counted twice. */
  lemma NothingVanishes(size: TelemetryBatch -> nat, disk: Spool.Disk, spoolRun: seq<Spool.Step>,
                        captureRun: seq<Capture.Step>, games: set<int>)
    requires var c, offered := Capture.Exec(captureRun), Offered(size, disk, spoolRun);
             OneLife(spoolRun) && offered == c.spooled + Writing(c, offered)
    requires forall i :: 0 <= i < |Capture.Exec(captureRun).spooled| ==>
               Capture.Exec(captureRun).spooled[i].gameId in games
    requires forall g :: g in games ==> Entered(Capture.Exec(captureRun), g) <= I64_MAX
    ensures var c, s := Capture.Exec(captureRun), Spool.Exec(size, disk, spoolRun);
            var entered := map g | g in games :: Entered(c, g);
            var inside := map g | g in games :: InSensor(c, g);
            var twice := SumOf(UnitsOf, Writing(c, Offered(size, disk, spoolRun)));
            && Spool.OnDisk(disk) + Total(entered) + twice <= Total(inside) + Spool.Safe(s, s.cache)
            && (Acknowledged(spoolRun) && Spool.NonNegative(disk) && s.phase.Idle? ==>
                  Spool.OnDisk(disk) + Total(entered) + twice ==
                  Total(inside) + Total(s.accepted) + Spool.OnDisk(s.cache) + s.spilled)
            && (s.spilled > 0 ==> s.capped)
  {
    hide Capture.Exec, Spool.Exec, Offered, Spool.OnDisk, Entered, InSensor, HandedOver, Spool.Safe, Writing, SumOf;
    var c, s := Capture.Exec(captureRun), Spool.Exec(size, disk, spoolRun);
    var entered := map g | g in games :: Entered(c, g);
    var inside := map g | g in games :: InSensor(c, g);
    Spool.RunConserves(size, disk, spoolRun);
    if Acknowledged(spoolRun) && Spool.NonNegative(disk) {
      Spool.CleanRunBalances(size, disk, spoolRun);
    }
    OfferedIsEnqueued(size, disk, spoolRun);
    SumOfAppend(UnitsOf, c.spooled, Writing(c, Offered(size, disk, spoolRun)));
    GamesShareBatches(games, c.spooled);
    forall g | g in games ensures entered[g] == SumOf(BatchRows(g), c.spooled) + inside[g] {
      EveryGameBalances(captureRun, g);
    }
    HandedOverIs(games, c.spooled);
    TotalAdds(HandedOver(games, c.spooled), inside, entered);
  }

  lemma HandedOverIs(games: set<int>, batches: seq<TelemetryBatch>)
    ensures HandedOver(games, batches).Keys == games
    ensures forall g :: g in games ==> HandedOver(games, batches)[g] == SumOf(BatchRows(g), batches)
  {}
}
