/** Per game, every row that entered the sensor is on its way, handed to the
    spool, or reported as dropped. */
module CaptureAccounting {
  import opened Sums
  import opened Telemetry
  import opened LossCounters
  import opened FlagDedup
  import opened CaptureProtocol

  ghost function SightingRows(gameId: int): Sighting -> nat { (s: Sighting) => if s.gameId == gameId then 1 else 0 }

  ghost function BatchRows(gameId: int): TelemetryBatch -> nat {
    (b: TelemetryBatch) => if b.gameId == gameId then Units(b) else 0
  }

  ghost function CapturedRows(gameId: int): Captured -> nat {
    (c: Captured) => if c.telemetry.gameId == gameId then Units(c.telemetry) else 0
  }

  /** Rows and losses that the sensor still knows about. */
  ghost function Accounted(s: State, gameId: int): nat {
    SumOf(SightingRows(gameId), s.core.tracker.flags) + SumOf(BatchRows(gameId), s.flushing)
    + SumOf(CapturedRows(gameId), s.channel) + SumOf(CapturedRows(gameId), s.spooling)
    + SumOf(BatchRows(gameId), s.spooled) + DropsOf(s.core.drops, gameId).rows
  }

  /** Rows produced and losses recorded. */
  ghost function Entered(s: State, gameId: int): nat { Count(s.produced, gameId) + Count(s.recorded, gameId) }

  /** Nothing is invented, and as long as a signed word can hold everything that
      ever entered, nothing is lost. */
  ghost predicate Matches(accounted: nat, entered: nat) {
    accounted <= entered && (entered <= I64_MAX ==> accounted == entered)
  }

  ghost predicate Balanced(s: State) {
    && (forall g :: Matches(Accounted(s, g), Entered(s, g)))
    && (forall i :: 0 <= i < |s.flushing| ==> s.flushing[i].droppedRows >= 0)
  }

  lemma OutgoingRows(b: TelemetryBatch)
    requires b.droppedRows >= 0
    ensures Matches(Units(Outgoing(b).telemetry), Units(b))
    ensures Matches(RowCount(Outgoing(b).telemetry), Units(b))
    ensures Outgoing(b).telemetry.gameId == b.gameId
  {
    hide Trim;
    TrimKeepsWhatFits(b);
  }

  // ---- what collecting does to the sums ----

  lemma {:induction false} SightingsOfGame(flags: seq<Sighting>, gameId: int)
    ensures SumOf(SightingRows(gameId), flags) == |FlagsOf(flags, gameId)|
  {
    if flags != [] {
      FlagsOfHead(flags, gameId);
      SightingsOfGame(flags[1..], gameId);
    }
  }

  /** With one batch per game, a game's share of the batches is its own batch. */
  lemma {:induction false} OneBatchCounts(batches: seq<TelemetryBatch>, gameId: int, counts: map<int, nat>)
    requires OnePerGame(batches)
    ensures HasBatch(batches, gameId) ==>
              exists i :: 0 <= i < |batches| && batches[i].gameId == gameId
                          && SumOf(BatchRows(gameId), batches) == Units(batches[i])
                          && Count(BumpFresh(counts, batches), gameId) == Count(counts, gameId) + FreshRows(batches[i])
    ensures !HasBatch(batches, gameId) ==>
              && SumOf(BatchRows(gameId), batches) == 0
              && Count(BumpFresh(counts, batches), gameId) == Count(counts, gameId)
  {
    if batches != [] {
      var rest := batches[1..];
      assert forall i :: 0 <= i < |rest| ==> rest[i] == batches[i + 1];
      OneBatchCounts(rest, gameId, counts);
      if HasBatch(rest, gameId) {
        var i :| 0 <= i < |rest| && rest[i].gameId == gameId
                 && SumOf(BatchRows(gameId), rest) == Units(rest[i])
                 && Count(BumpFresh(counts, rest), gameId) == Count(counts, gameId) + FreshRows(rest[i]);
        assert batches[i + 1] == rest[i];
      } else if batches[0].gameId == gameId {
        assert HasBatch(batches, gameId);
      } else {
        assert !HasBatch(batches, gameId);
      }
    }
  }

  lemma CollectedRows(core: Core, b: TelemetryBatch)
    requires Collects(core, b)
    ensures Matches(Units(b),
                    FreshRows(b) + |FlagsOf(core.tracker.flags, b.gameId)| + DropsOf(core.drops, b.gameId).rows)
  {
    hide FlagsOf, DropsOf;
  }

  /** What a game's pending flags, pending losses and new rows become. */
  lemma CollectedShare(core: Core, batches: seq<TelemetryBatch>, counts: map<int, nat>, g: int)
    requires Collected(core, batches)
    ensures SumOf(BatchRows(g), batches) + Count(counts, g) <=
            Count(BumpFresh(counts, batches), g) + |FlagsOf(core.tracker.flags, g)| + DropsOf(core.drops, g).rows
    ensures Count(counts, g) <= Count(BumpFresh(counts, batches), g)
    ensures |FlagsOf(core.tracker.flags, g)| + DropsOf(core.drops, g).rows + Count(BumpFresh(counts, batches), g) <=
            I64_MAX + Count(counts, g) ==>
              SumOf(BatchRows(g), batches) + Count(counts, g) ==
              Count(BumpFresh(counts, batches), g) + |FlagsOf(core.tracker.flags, g)| + DropsOf(core.drops, g).rows
  {
    hide OnePerGame, Units, FreshRows, FlagsOf, Collects, Count, BumpFresh, SumOf;
    OneBatchCounts(batches, g, counts);
    if HasBatch(batches, g) {
      var i :| 0 <= i < |batches| && batches[i].gameId == g
               && SumOf(BatchRows(g), batches) == Units(batches[i])
               && Count(BumpFresh(counts, batches), g) == Count(counts, g) + FreshRows(batches[i]);
      CollectedRows(core, batches[i]);
    } else {
      assert g !in core.drops && FlagsOf(core.tracker.flags, g) == [];
    }
  }

  lemma CollectBalances(s: State, batches: seq<TelemetryBatch>, g: int)
    requires Balanced(s) && Enabled(s, Collect(batches))
    ensures var s' := Apply(s, Collect(batches)); Matches(Accounted(s', g), Entered(s', g))
  {
    hide Collected, FlagsOf, BumpFresh, Count, BatchRows, CapturedRows, SightingRows;
    CollectedShare(s.core, batches, s.produced, g);
    SightingsOfGame(s.core.tracker.flags, g);
    assert Matches(Accounted(s, g), Entered(s, g));
  }

  lemma OfferBalances(s: State, taken: bool, g: int)
    requires Balanced(s) && Enabled(s, Offer(taken))
    ensures var s' := Apply(s, Offer(taken)); Matches(Accounted(s', g), Entered(s', g))
  {
    hide Outgoing, CutKeys, Collected, Released, RowCount, Units;
    var b := s.flushing[0];
    OutgoingRows(b);
    assert Matches(Accounted(s, g), Entered(s, g));
    if taken {
      SumOfAppend(CapturedRows(g), s.channel, [Outgoing(b)]);
      SumOfOne(CapturedRows(g), Outgoing(b));
    }
  }

  lemma SightBalances(s: State, sighting: Sighting, g: int)
    requires Balanced(s) && Enabled(s, Sight(sighting))
    ensures var s' := Apply(s, Sight(sighting)); Matches(Accounted(s', g), Entered(s', g))
  {
    hide Collected, Units;
    assert Matches(Accounted(s, g), Entered(s, g));
    SumOfAppend(SightingRows(g), s.core.tracker.flags, [sighting]);
    SumOfOne(SightingRows(g), sighting);
  }

  lemma HandOverBalances(s: State, step: Step, g: int)
    requires Balanced(s) && Enabled(s, step) && (step.Receive? || step.Spooled? || step.Observe?)
    ensures var s' := Apply(s, step); Matches(Accounted(s', g), Entered(s', g))
  {
    hide Collected, Units, FreshRows;
    assert Matches(Accounted(s, g), Entered(s, g));
    match step
    case Receive =>
      SumOfOne(CapturedRows(g), s.channel[0]);
    case Spooled =>
      SumOfAppend(BatchRows(g), s.spooled, [s.spooling[0].telemetry]);
      SumOfOne(BatchRows(g), s.spooling[0].telemetry);
    case Observe(batch) =>
      SumOfAppend(BatchRows(g), s.spooled, [batch]);
      SumOfOne(BatchRows(g), batch);
      ObservedRows(batch);
  }

  lemma LoseBalances(s: State, step: Step, g: int)
    requires Balanced(s) && Enabled(s, step) && (step.Lose? || step.Release?)
    ensures var s' := Apply(s, step); Matches(Accounted(s', g), Entered(s', g))
  {
    hide Collected, Released;
    assert Matches(Accounted(s, g), Entered(s, g));
  }

  lemma ObservedRows(b: TelemetryBatch)
    requires b.flagTransports == [] && b.droppedRows == 0
    ensures Units(b) == FreshRows(b)
  {}

  lemma FlushingStaysInRange(s: State, step: Step)
    requires Balanced(s) && Enabled(s, step)
    ensures var s' := Apply(s, step); forall i :: 0 <= i < |s'.flushing| ==> s'.flushing[i].droppedRows >= 0
  {
    if step.Collect? {
      forall i | 0 <= i < |step.batches| ensures step.batches[i].droppedRows >= 0 {
        assert Collects(s.core, step.batches[i]);
      }
    }
  }

  lemma StepBalances(s: State, step: Step)
    requires Balanced(s) && Enabled(s, step)
    ensures Balanced(Apply(s, step))
  {
    hide Apply, Enabled, Accounted, Entered, Matches;
    FlushingStaysInRange(s, step);
    forall g ensures Matches(Accounted(Apply(s, step), g), Entered(Apply(s, step), g)) {
      if step.Collect? {
        CollectBalances(s, step.batches, g);
      } else if step.Sight? {
        SightBalances(s, step.sighting, g);
      } else if step.Offer? {
        OfferBalances(s, step.taken, g);
      } else if step.Lose? || step.Release? {
        LoseBalances(s, step, g);
      } else {
        HandOverBalances(s, step, g);
      }
    }
  }

  lemma {:induction false} RunBalances(run: seq<Step>)
    ensures Balanced(Exec(run))
  {
    if run != [] {
      hide Balanced, Apply, Enabled;
      RunBalances(run[..|run| - 1]);
      var s := Exec(run[..|run| - 1]);
      if Enabled(s, run[|run| - 1]) {
        StepBalances(s, run[|run| - 1]);
      }
    }
  }

  /** What is still inside the sensor: pending, collected, in the channel, being
      spooled, or a recorded loss not yet attached to a batch. */
  ghost function InSensor(s: State, gameId: int): nat {
    SumOf(SightingRows(gameId), s.core.tracker.flags) + SumOf(BatchRows(gameId), s.flushing)
    + SumOf(CapturedRows(gameId), s.channel) + SumOf(CapturedRows(gameId), s.spooling)
    + DropsOf(s.core.drops, gameId).rows
  }

  /** For every game and every run of both tasks: rows produced plus losses
      recorded are rows handed to the spool, plus the losses those batches report,
      plus what is still in the sensor, whatever was trimmed or refused. */
  lemma EveryGameBalances(run: seq<Step>, gameId: int)
    ensures var s := Exec(run);
            && SumOf(BatchRows(gameId), s.spooled) + InSensor(s, gameId) <= Entered(s, gameId)
            && (Entered(s, gameId) <= I64_MAX ==>
                  SumOf(BatchRows(gameId), s.spooled) + InSensor(s, gameId) == Entered(s, gameId))
  {
    RunBalances(run);
    assert Matches(Accounted(Exec(run), gameId), Entered(Exec(run), gameId));
  }

  /** Beyond a signed word rows do get lost: pending losses are unsigned, and what
      does not fit is cut off when they are attached to a batch. */
  lemma WordOverflowLosesRows(rows: nat)
    requires I64_MAX < rows <= U64_MAX
    ensures var s := Exec([Lose(0, rows, 0), Collect([EmptyBatch(0, 0).(droppedRows := I64_MAX)])]);
            Entered(s, 0) == rows && SumOf(BatchRows(0), s.spooled) + InSensor(s, 0) == I64_MAX
  {
    var batch := EmptyBatch(0, 0).(droppedRows := I64_MAX);
    var run := [Lose(0, rows, 0), Collect([batch])];
    assert run[..1] == [Lose(0, rows, 0)] && run[..1][..0] == [];
    var s1 := Apply(Start(), Lose(0, rows, 0));
    assert After(Start(), run[..1]) == s1;
    assert s1.core.drops == map[0 := Drops(rows, 0)];
    assert [batch][0].gameId == 0 && FlagsOf(s1.core.tracker.flags, 0) == [];
    assert HasBatch([batch], 0) && Collects(s1.core, batch);
    assert Collected(s1.core, [batch]);
    assert Exec(run) == Apply(s1, run[1]);
    assert [batch][1..] == [] && BumpFresh(map[], []) == map[];
    assert BumpFresh(map[], [batch]) == map[0 := 0];
    SumOfOne(BatchRows(0), batch);
  }
}
