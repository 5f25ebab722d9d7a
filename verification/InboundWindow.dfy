/** The lock-free one-second admission window of the WebSocket hubs, as the
    interleaved atomic steps of any number of concurrent calls. Atomics are
    sequentially consistent and counters do not wrap. */
module InboundWindow {
  import opened Sums

  const WINDOW_RESETTING: nat := 0x8000_0000_0000_0000

  /** Where a call stands. `Done` remembers its place in both counters: the value
      its own addition produced and the epoch (the number of clears before it). */
  datatype Pc =
    | Load
    | CompareExchange(observed: nat)
    | ClearFrames
    | ClearBytes
    | Publish
    | AddFrame
    | AddBytes(frame: Place)
    | Done(frame: Place, bytes: Place)

  datatype Place = Place(value: nat, epoch: nat)

  datatype Call = Call(size: nat, second: nat, pc: Pc)

  type CallId = nat

  /** The three atomics, the calls, and the history of the run: the seconds for
      which a reset was claimed, the call that holds the current claim, and how
      often each counter was cleared. */
  datatype Window = Window(word: nat, frames: nat, bytes: nat, calls: map<CallId, Call>,
                           resets: seq<nat>, owner: Owner, frameEpoch: nat, byteEpoch: nat)

  datatype Owner = Nobody | Claimed(id: CallId)

  datatype Step = Begin(id: CallId, size: nat, second: nat) | Advance(id: CallId)

  function Initial(): Window { Window(0, 0, 0, map[], [], Nobody, 0, 0) }

  /** The second the window is published for, whether or not a reset is going on. */
  function Second(w: Window): nat { if w.word < WINDOW_RESETTING then w.word else w.word - WINDOW_RESETTING }

  ghost predicate Enabled(w: Window, step: Step) {
    match step
    case Begin(id, _, second) => id !in w.calls && second < WINDOW_RESETTING
    case Advance(id) => id in w.calls && !w.calls[id].pc.Done?
  }

  function At(w: Window, id: CallId, pc: Pc): Window
    requires id in w.calls
  {
    w.(calls := w.calls[id := w.calls[id].(pc := pc)])
  }

  /** What a call does after loading the generation word. */
  function AfterLoad(observed: nat, second: nat): Pc {
    if observed == second then AddFrame
    else if observed >= WINDOW_RESETTING then Load
    else if observed > second then AddFrame
    else CompareExchange(observed)
  }

  ghost function Apply(w: Window, step: Step): Window
    requires Enabled(w, step)
  {
    match step
    case Begin(id, size, second) => w.(calls := w.calls[id := Call(size, second, Load)])
    case Advance(id) =>
      var call := w.calls[id];
      match call.pc
      case Load => At(w, id, AfterLoad(w.word, call.second))
      case CompareExchange(observed) =>
        if w.word == observed then
          At(w, id, ClearFrames).(word := call.second + WINDOW_RESETTING, resets := w.resets + [call.second],
          owner := Claimed(id))
        else At(w, id, Load)
      case ClearFrames => At(w, id, ClearBytes).(frames := 0, frameEpoch := w.frameEpoch + 1)
      case ClearBytes => At(w, id, Publish).(bytes := 0, byteEpoch := w.byteEpoch + 1)
      case Publish => At(w, id, AddFrame).(word := call.second, owner := Nobody)
      case AddFrame => At(w, id, AddBytes(Place(w.frames + 1, w.frameEpoch))).(frames := w.frames + 1)
      case AddBytes(frame) =>
        At(w, id, Done(frame, Place(w.bytes + call.size, w.byteEpoch))).(bytes := w.bytes + call.size)
  }

  /** The verdict of a finished call. */
  predicate Admitted(call: Call, frameLimit: nat, byteLimit: nat) {
    call.pc.Done? && call.pc.frame.value <= frameLimit && call.pc.bytes.value <= byteLimit
  }

  // ---- the reset protocol ----

  predicate Resetting(pc: Pc) { pc.ClearFrames? || pc.ClearBytes? || pc.Publish? }

  ghost predicate Increasing(s: seq<nat>) {
    && (forall i :: 0 <= i < |s| ==> 0 < s[i] < WINDOW_RESETTING)
    && forall i, j :: 0 <= i < j < |s| ==> s[i] < s[j]
  }

  /** Clears that the claiming call has yet to perform. */
  function FrameLag(w: Window): nat {
    if w.owner.Claimed? && w.owner.id in w.calls && w.calls[w.owner.id].pc.ClearFrames? then 1 else 0
  }

  function ByteLag(w: Window): nat {
    if w.owner.Claimed? && w.owner.id in w.calls && !w.calls[w.owner.id].pc.Publish? then 1 else 0
  }

  ghost predicate CallInv(w: Window, id: CallId)
    requires id in w.calls
  {
    var call := w.calls[id];
    && call.second < WINDOW_RESETTING
    && (call.pc.CompareExchange? ==> call.pc.observed < call.second)
    && (Resetting(call.pc) <==> w.owner == Claimed(id))
    && (call.pc.Load? || call.pc.CompareExchange? || call.second <= Second(w))
  }

  /** At most one call resets at a time, the generation word says so, each claimed
      second clears each counter exactly once, and a call leaves its loop only when
      its own second or a later one is published. */
  ghost predicate ResetInv(w: Window) {
    && Increasing(w.resets)
    && Second(w) == (if w.resets == [] then 0 else w.resets[|w.resets| - 1])
    && (forall id :: id in w.calls ==> CallInv(w, id))
    && (w.owner.Nobody? <==> w.word < WINDOW_RESETTING)
    && (w.owner.Claimed? ==> w.owner.id in w.calls && w.word == w.calls[w.owner.id].second + WINDOW_RESETTING)
    && w.frameEpoch + FrameLag(w) == |w.resets|
    && w.byteEpoch + ByteLag(w) == |w.resets|
  }

  lemma CallStep(w: Window, step: Step, id: CallId)
    requires ResetInv(w) && Enabled(w, step) && id in Apply(w, step).calls
    ensures CallInv(Apply(w, step), id)
  {
    hide Increasing, FrameLag, ByteLag;
    assert id in w.calls ==> CallInv(w, id);
    assert step.Advance? ==> CallInv(w, step.id);
  }

  lemma CallsStep(w: Window, step: Step)
    requires ResetInv(w) && Enabled(w, step)
    ensures forall id :: id in Apply(w, step).calls ==> CallInv(Apply(w, step), id)
  {
    hide ResetInv, Apply, CallInv;
    forall id | id in Apply(w, step).calls ensures CallInv(Apply(w, step), id) {
      CallStep(w, step, id);
    }
  }

  /** A claim publishes a later second than any before it. */
  lemma ClaimStep(w: Window, id: CallId)
    requires ResetInv(w) && id in w.calls && w.calls[id].pc == CompareExchange(w.word)
    ensures ResetInv(Apply(w, Advance(id)))
    ensures Second(w) <= Second(Apply(w, Advance(id))) && w.resets <= Apply(w, Advance(id)).resets
  {
    CallsStep(w, Advance(id));
    assert CallInv(w, id);
    assert w.owner.Nobody?;
  }

  lemma ResetStep(w: Window, step: Step)
    requires ResetInv(w) && Enabled(w, step)
    ensures ResetInv(Apply(w, step))
    ensures Second(w) <= Second(Apply(w, step)) && w.resets <= Apply(w, step).resets
  {
    if step.Advance? && w.calls[step.id].pc == CompareExchange(w.word) {
      ClaimStep(w, step.id);
    } else {
      hide Increasing;
      CallsStep(w, step);
      assert step.Advance? ==> CallInv(w, step.id);
    }
  }

  // ---- the two ceilings ----

  /** Calls whose frame number was drawn in epoch `e` and is within the limit. */
  ghost function FrameGrants(w: Window, e: nat, limit: nat): map<CallId, nat> {
    map id | id in w.calls && FrameGranted(w.calls[id].pc, e, limit) :: 1
  }

  predicate FrameGranted(pc: Pc, e: nat, limit: nat) {
    (pc.AddBytes? || pc.Done?) && pc.frame.epoch == e && pc.frame.value <= limit
  }

  /** Sizes of the calls whose running byte total, in epoch `e`, is within the limit. */
  ghost function ByteGrants(w: Window, e: nat, limit: nat): map<CallId, nat> {
    map id | id in w.calls && ByteGranted(w.calls[id].pc, e, limit) :: w.calls[id].size
  }

  predicate ByteGranted(pc: Pc, e: nat, limit: nat) {
    pc.Done? && pc.bytes.epoch == e && pc.bytes.value <= limit
  }

  ghost predicate FrameInv(w: Window, limit: nat) {
    && (forall e :: e > w.frameEpoch ==> FrameGrants(w, e, limit) == map[])
    && (forall e :: Total(FrameGrants(w, e, limit)) <= limit)
    && Total(FrameGrants(w, w.frameEpoch, limit)) == Min(limit, w.frames)
  }

  ghost predicate ByteInv(w: Window, limit: nat) {
    && (forall e :: e > w.byteEpoch ==> ByteGrants(w, e, limit) == map[])
    && (forall e :: Total(ByteGrants(w, e, limit)) <= limit)
    && Total(ByteGrants(w, w.byteEpoch, limit)) <= w.bytes
    && (w.bytes <= limit ==> Total(ByteGrants(w, w.byteEpoch, limit)) == w.bytes)
  }

  /** Grants change only where a step draws a frame number within the limit ... */
  lemma FrameGrantsChange(w: Window, step: Step, e: nat, limit: nat)
    requires Enabled(w, step)
    ensures FrameGrants(Apply(w, step), e, limit) ==
            if step.Advance? && w.calls[step.id].pc.AddFrame? && e == w.frameEpoch && w.frames + 1 <= limit
            then FrameGrants(w, e, limit)[step.id := 1]
            else FrameGrants(w, e, limit)
  {
  }

  /** ... or adds bytes within the limit. */
  lemma ByteGrantsChange(w: Window, step: Step, e: nat, limit: nat)
    requires Enabled(w, step)
    ensures ByteGrants(Apply(w, step), e, limit) ==
            if step.Advance? && w.calls[step.id].pc.AddBytes? && e == w.byteEpoch
              && w.bytes + w.calls[step.id].size <= limit
            then ByteGrants(w, e, limit)[step.id := w.calls[step.id].size]
            else ByteGrants(w, e, limit)
  {
  }

  lemma FrameNotGranted(w: Window, id: CallId, e: nat, limit: nat)
    requires id in w.calls && !FrameGranted(w.calls[id].pc, e, limit)
    ensures id !in FrameGrants(w, e, limit)
  {
  }

  lemma FrameStep(w: Window, step: Step, limit: nat)
    requires FrameInv(w, limit) && Enabled(w, step)
    ensures FrameInv(Apply(w, step), limit)
  {
    hide FrameGrants;
    var w' := Apply(w, step);
    forall e: nat
      ensures Total(FrameGrants(w', e, limit)) <= limit
      ensures e > w'.frameEpoch ==> FrameGrants(w', e, limit) == map[]
      ensures e == w'.frameEpoch ==> Total(FrameGrants(w', e, limit)) == Min(limit, w'.frames)
    {
      FrameGrantsChange(w, step, e, limit);
      if step.Advance? && !FrameGranted(w.calls[step.id].pc, e, limit) {
        FrameNotGranted(w, step.id, e, limit);
        TotalUpdate(FrameGrants(w, e, limit), step.id, 1);
      }
    }
  }

  lemma ByteNotGranted(w: Window, id: CallId, e: nat, limit: nat)
    requires id in w.calls && !ByteGranted(w.calls[id].pc, e, limit)
    ensures id !in ByteGrants(w, e, limit)
  {
  }

  lemma ByteStep(w: Window, step: Step, limit: nat)
    requires ByteInv(w, limit) && Enabled(w, step)
    ensures ByteInv(Apply(w, step), limit)
  {
    hide ByteGrants;
    var w' := Apply(w, step);
    forall e: nat
      ensures Total(ByteGrants(w', e, limit)) <= limit
      ensures e > w'.byteEpoch ==> ByteGrants(w', e, limit) == map[]
      ensures e == w'.byteEpoch ==> Total(ByteGrants(w', e, limit)) <= w'.bytes
      ensures e == w'.byteEpoch && w'.bytes <= limit ==> Total(ByteGrants(w', e, limit)) == w'.bytes
    {
      ByteGrantsChange(w, step, e, limit);
      if step.Advance? && !ByteGranted(w.calls[step.id].pc, e, limit) {
        ByteNotGranted(w, step.id, e, limit);
        TotalUpdate(ByteGrants(w, e, limit), step.id, w.calls[step.id].size);
      }
    }
  }

  // ---- whole runs ----

  /** The state after a run; steps that are not enabled are skipped. */
  ghost function Exec(run: seq<Step>): Window {
    if run == [] then Initial()
    else
      var w := Exec(run[..|run| - 1]);
      if Enabled(w, run[|run| - 1]) then Apply(w, run[|run| - 1]) else w
  }

  /** Runs go step by step. A call may begin whenever its number is free, for every size
      and second, and changes nothing before its first step; every call that is not done
      can take its next step. */
  lemma RunsStepByStep(run: seq<Step>, step: Step)
    ensures Exec([]) == Window(0, 0, 0, map[], [], Nobody, 0, 0)
    ensures Enabled(Exec(run), step) ==> Exec(run + [step]) == Apply(Exec(run), step)
    ensures step.Begin? && step.id !in Exec(run).calls && step.second < 0x8000_0000_0000_0000 ==>
              var w := Exec(run);
              Exec(run + [step]) == w.(calls := w.calls[step.id := Call(step.size, step.second, Load)])
    ensures step.Advance? && step.id in Exec(run).calls && !Exec(run).calls[step.id].pc.Done? ==>
              Enabled(Exec(run), step)
  {
    assert (run + [step])[..|run|] == run;
  }

  lemma {:induction false} RunInv(run: seq<Step>, frameLimit: nat, byteLimit: nat)
    ensures ResetInv(Exec(run)) && FrameInv(Exec(run), frameLimit) && ByteInv(Exec(run), byteLimit)
  {
    if run == [] {
      assert forall e :: FrameGrants(Initial(), e, frameLimit) == map[] && ByteGrants(Initial(), e, byteLimit) == map[];
    } else {
      hide FrameInv, ByteInv, ResetInv, Apply, Enabled;
      RunInv(run[..|run| - 1], frameLimit, byteLimit);
      var w := Exec(run[..|run| - 1]);
      if Enabled(w, run[|run| - 1]) {
        ResetStep(w, run[|run| - 1]);
        FrameStep(w, run[|run| - 1], frameLimit);
        ByteStep(w, run[|run| - 1], byteLimit);
      }
    }
  }

  lemma {:induction false} OnlyForward(run: seq<Step>, more: seq<Step>)
    ensures Second(Exec(run)) <= Second(Exec(run + more)) && Exec(run).resets <= Exec(run + more).resets
  {
    hide ResetInv, FrameInv, ByteInv, Apply, Enabled, Second;
    if more == [] {
      assert run + more == run;
    } else {
      var init, all := more[..|more| - 1], run + more;
      assert all[..|all| - 1] == run + init && all[|all| - 1] == more[|more| - 1];
      OnlyForward(run, init);
      RunInv(run + init, 0, 0);
      if Enabled(Exec(run + init), more[|more| - 1]) {
        ResetStep(Exec(run + init), more[|more| - 1]);
      }
    }
  }

  /** In every run the published second only moves forward and reaches that of every
      finished call, no second is claimed for a reset twice, and each claim clears each
      counter once. */
  lemma SecondsOnlyAdvance(run: seq<Step>, more: seq<Step>)
    ensures Second(Exec(run)) <= Second(Exec(run + more))
    ensures Exec(run).resets <= Exec(run + more).resets
    ensures var w := Exec(run + more);
            && (forall i, j :: 0 <= i < j < |w.resets| ==> w.resets[i] < w.resets[j])
            && (w.word < WINDOW_RESETTING ==> w.frameEpoch == w.byteEpoch == |w.resets|)
            && (w.word >= WINDOW_RESETTING ==>
                  w.frameEpoch <= |w.resets| <= w.frameEpoch + 1 && w.byteEpoch <= |w.resets| <= w.byteEpoch + 1)
            && (forall id :: id in w.calls && w.calls[id].pc.Done? ==> w.calls[id].second <= Second(w))
  {
    hide FrameInv, ByteInv, Exec, Apply, Enabled;
    OnlyForward(run, more);
    RunInv(run + more, 0, 0);
    var w := Exec(run + more);
    assert forall id :: id in w.calls ==> CallInv(w, id);
  }

  ghost function AdmittedFrames(w: Window, e: nat, frameLimit: nat, byteLimit: nat): set<CallId> {
    set id | id in w.calls && Admitted(w.calls[id], frameLimit, byteLimit) && w.calls[id].pc.frame.epoch == e
  }

  ghost function AdmittedSizes(w: Window, e: nat, frameLimit: nat, byteLimit: nat): map<CallId, nat> {
    map id | id in w.calls && Admitted(w.calls[id], frameLimit, byteLimit)
      && w.calls[id].pc.bytes.epoch == e :: w.calls[id].size
  }

  /** For every interleaving of every set of calls, whatever second each of them
      sampled: between two clears of the frame counter at most `frameLimit` calls
      are admitted, and between two clears of the byte counter the admitted calls
      carry at most `byteLimit` bytes. */
  lemma AdmissionCeilings(run: seq<Step>, e: nat, frameLimit: nat, byteLimit: nat)
    ensures |AdmittedFrames(Exec(run), e, frameLimit, byteLimit)| <= frameLimit
    ensures Total(AdmittedSizes(Exec(run), e, frameLimit, byteLimit)) <= byteLimit
  {
    var w := Exec(run);
    RunInv(run, frameLimit, byteLimit);
    var admitted: map<CallId, nat> := map id | id in AdmittedFrames(w, e, frameLimit, byteLimit) :: 1;
    assert admitted.Keys == AdmittedFrames(w, e, frameLimit, byteLimit);
    TotalOfOnes(admitted);
    TotalMonotone(admitted, FrameGrants(w, e, frameLimit));
    TotalMonotone(AdmittedSizes(w, e, frameLimit, byteLimit), ByteGrants(w, e, byteLimit));
  }

  /** Numbers drawn since the last clear do not exceed the counters. */
  ghost predicate PlaceInv(w: Window) {
    forall id :: id in w.calls ==> FramePlaced(w, w.calls[id].pc) && BytesPlaced(w, w.calls[id].pc)
  }

  predicate FramePlaced(w: Window, pc: Pc) {
    pc.AddBytes? || pc.Done? ==>
      pc.frame.epoch <= w.frameEpoch && (pc.frame.epoch == w.frameEpoch ==> pc.frame.value <= w.frames)
  }

  predicate BytesPlaced(w: Window, pc: Pc) {
    pc.Done? ==> pc.bytes.epoch <= w.byteEpoch && (pc.bytes.epoch == w.byteEpoch ==> pc.bytes.value <= w.bytes)
  }

  lemma PlaceStep(w: Window, step: Step)
    requires PlaceInv(w) && Enabled(w, step)
    ensures PlaceInv(Apply(w, step))
  {
    var w' := Apply(w, step);
    forall id | id in w'.calls ensures FramePlaced(w', w'.calls[id].pc) && BytesPlaced(w', w'.calls[id].pc) {
      assert id in w.calls ==> FramePlaced(w, w.calls[id].pc) && BytesPlaced(w, w.calls[id].pc);
    }
  }

  lemma {:induction false} RunPlaces(run: seq<Step>)
    ensures PlaceInv(Exec(run))
  {
    if run != [] {
      hide PlaceInv, Apply, Enabled;
      RunPlaces(run[..|run| - 1]);
      var w := Exec(run[..|run| - 1]);
      if Enabled(w, run[|run| - 1]) {
        PlaceStep(w, run[|run| - 1]);
      }
    }
  }

  /** The ceilings are not stricter than promised. Since the last clear exactly
      min(limit, calls) calls drew a frame number within the limit, all bytes are
      granted while they fit, and as long as both totals are within their limits
      every call that finished since the last clears is admitted. */
  lemma CeilingsAreTight(run: seq<Step>, frameLimit: nat, byteLimit: nat)
    ensures var w := Exec(run);
            && |FrameGrants(w, w.frameEpoch, frameLimit).Keys| == Min(frameLimit, w.frames)
            && (w.bytes <= byteLimit ==> Total(ByteGrants(w, w.byteEpoch, byteLimit)) == w.bytes)
            && (w.frames <= frameLimit && w.bytes <= byteLimit ==>
                  forall id :: id in w.calls && w.calls[id].pc.Done?
                               && w.calls[id].pc.frame.epoch == w.frameEpoch
                               && w.calls[id].pc.bytes.epoch == w.byteEpoch ==>
                                 Admitted(w.calls[id], frameLimit, byteLimit))
  {
    var w := Exec(run);
    RunInv(run, frameLimit, byteLimit);
    RunPlaces(run);
    TotalOfOnes(FrameGrants(w, w.frameEpoch, frameLimit));
  }

  // ---- a new second opens a new window ----

  /** In every run, a call that has left its loop finds the window published for its own
      second or a later one, so no call is charged to a window that is over. */
  lemma ChargedToOwnSecond(run: seq<Step>, id: CallId)
    requires id in Exec(run).calls
    requires var pc := Exec(run).calls[id].pc; pc.AddFrame? || pc.AddBytes? || pc.Done?
    ensures Exec(run).calls[id].second <= Second(Exec(run))
  {
    RunInv(run, 0, 0);
    assert CallInv(Exec(run), id);
  }

  /** The window after `n` steps of one call while all others stand still. */
  ghost function Alone(w: Window, id: CallId, n: nat): Window
    decreases n
  {
    if n == 0 || !Enabled(w, Advance(id)) then w else Alone(Apply(w, Advance(id)), id, n - 1)
  }

  lemma {:induction false} AloneAdds(w: Window, id: CallId, m: nat, n: nat)
    ensures Alone(w, id, m + n) == Alone(Alone(w, id, m), id, n)
    decreases m
  {
    if m > 0 && Enabled(w, Advance(id)) {
      AloneAdds(Apply(w, Advance(id)), id, m - 1, n);
    }
  }

  /** A call that is past the loop takes the next place in both counters. */
  lemma CountsAlone(w: Window, id: CallId)
    requires id in w.calls && w.calls[id].pc.AddFrame?
    ensures var after, size := Alone(w, id, 2), w.calls[id].size;
            && id in after.calls && after.word == w.word && after.resets == w.resets
            && after.frames == w.frames + 1 && after.bytes == w.bytes + size
            && after.calls[id].pc == Done(Place(w.frames + 1, w.frameEpoch), Place(w.bytes + size, w.byteEpoch))
  {
    var w1 := Apply(w, Advance(id));
    assert Alone(w, id, 2) == Alone(w1, id, 1) == Alone(Apply(w1, Advance(id)), id, 0);
  }

  /** With no claim outstanding, a call whose second is published already, or past,
      stops waiting at once and is admitted, alone, if both limits still have room. */
  lemma PublishedSecondCounts(w: Window, id: CallId, frameLimit: nat, byteLimit: nat)
    requires id in w.calls && w.calls[id].pc.Load? && w.calls[id].second <= w.word < WINDOW_RESETTING
    ensures var next := Apply(w, Advance(id));
            && next.calls[id].pc.AddFrame? && next.word == w.word
            && next.frames == w.frames && next.bytes == w.bytes && next.resets == w.resets
    ensures var after := Alone(w, id, 3);
            && id in after.calls && after.calls[id].pc.Done?
            && (Admitted(after.calls[id], frameLimit, byteLimit) <==>
                w.frames + 1 <= frameLimit && w.bytes + w.calls[id].size <= byteLimit)
  {
    var w1 := Apply(w, Advance(id));
    CountsAlone(w1, id);
    assert Alone(w, id, 3) == Alone(w1, id, 2);
  }

  /** A call that is the first to load an older, unclaimed second publishes its own,
      finds both counters cleared and is admitted whenever the limits allow a call of
      its size at all. */
  lemma NewSecondOpensWindow(w: Window, id: CallId, frameLimit: nat, byteLimit: nat)
    requires id in w.calls && w.calls[id].pc.Load? && w.word < w.calls[id].second < WINDOW_RESETTING
    ensures var after, call := Alone(w, id, 7), w.calls[id];
            && after.word == call.second && after.resets == w.resets + [call.second]
            && after.frames == 1 && after.bytes == call.size
            && id in after.calls && after.calls[id].pc.Done?
            && (Admitted(after.calls[id], frameLimit, byteLimit) <==> 1 <= frameLimit && call.size <= byteLimit)
  {
    var w1 := Apply(w, Advance(id));
    assert w1.calls[id].pc == CompareExchange(w.word) && Alone(w, id, 7) == Alone(w1, id, 6);
    ClearsAlone(w1, id);
    AloneAdds(w1, id, 4, 2);
    CountsAlone(Alone(w1, id, 4), id);
  }

  /** A successful exchange, both clears and the publication. */
  lemma ClearsAlone(w: Window, id: CallId)
    requires id in w.calls && w.calls[id].pc == CompareExchange(w.word)
    ensures var after, call := Alone(w, id, 4), w.calls[id];
            && after.word == call.second && after.resets == w.resets + [call.second] && after.owner == Nobody
            && after.frames == 0 && after.bytes == 0
            && id in after.calls && after.calls[id] == call.(pc := AddFrame)
  {
    var w1 := Apply(w, Advance(id));
    var w2 := Apply(w1, Advance(id));
    var w3 := Apply(w2, Advance(id));
    assert Alone(w, id, 4) == Alone(w1, id, 3) == Alone(w2, id, 2);
    assert Alone(w2, id, 2) == Alone(w3, id, 1) == Alone(Apply(w3, Advance(id)), id, 0);
  }

  // ---- nobody waits for ever ----

  /** Only the holder of a claim keeps others waiting, and it needs at most three steps
      of its own to publish its second. */
  lemma ClaimEnds(run: seq<Step>)
    requires Exec(run).owner.Claimed?
    ensures var w := Exec(run);
            var after := Alone(w, w.owner.id, 3);
            w.owner.id in w.calls && after.owner == Nobody && after.word == w.calls[w.owner.id].second == Second(w)
  {
    RunInv(run, 0, 0);
    var w := Exec(run);
    var id := w.owner.id;
    hide FrameInv, ByteInv, Increasing, Exec;
    assert CallInv(w, id);
    ClaimEndsFrom(w, id);
  }

  lemma ClaimEndsFrom(w: Window, id: CallId)
    requires ResetInv(w) && w.owner == Claimed(id)
    ensures id in w.calls && Alone(w, id, 3).owner == Nobody
    ensures Alone(w, id, 3).word == w.calls[id].second == Second(w)
  {
    hide Increasing, FrameLag, ByteLag;
    assert CallInv(w, id);
    var w1 := Apply(w, Advance(id));
    var w2 := Apply(w1, Advance(id));
    assert Alone(w, id, 3) == Alone(w1, id, 2) == Alone(w2, id, 1);
    assert Enabled(w2, Advance(id)) ==> Alone(w2, id, 1) == Alone(Apply(w2, Advance(id)), id, 0);
  }

  /** And once no claim is outstanding, every call that is left to run alone ends. */
  lemma AloneEnds(run: seq<Step>, id: CallId)
    requires id in Exec(run).calls && Exec(run).owner == Nobody
    ensures var after := Alone(Exec(run), id, 8); id in after.calls && after.calls[id].pc.Done?
  {
    RunInv(run, 0, 0);
    hide FrameInv, ByteInv, Increasing, Exec;
    AloneEndsFrom(Exec(run), id);
  }

  lemma AloneEndsFrom(w: Window, id: CallId)
    requires ResetInv(w) && id in w.calls && w.owner == Nobody
    ensures var after := Alone(w, id, 8); id in after.calls && after.calls[id].pc.Done?
  {
    assert CallInv(w, id);
    match w.calls[id].pc
    case Load => LoadEnds(w, id);
    case CompareExchange(observed) =>
      if w.word == observed {
        ClearsAlone(w, id);
        AloneAdds(w, id, 4, 4);
        CountsAlone(Alone(w, id, 4), id);
        DoneStays(Alone(w, id, 4), id, 2, 2);
      } else {
        var w1 := Apply(w, Advance(id));
        LoadEnds(w1, id);
        assert Alone(w, id, 8) == Alone(w1, id, 7);
      }
    case AddFrame =>
      CountsAlone(w, id);
      DoneStays(w, id, 2, 6);
    case AddBytes(_) =>
      var w1 := Apply(w, Advance(id));
      assert Alone(w, id, 8) == Alone(w1, id, 7) == w1;
    case Done(_, _) =>
    case _ =>
  }

  lemma DoneStays(w: Window, id: CallId, m: nat, n: nat)
    requires id in Alone(w, id, m).calls && Alone(w, id, m).calls[id].pc.Done?
    ensures Alone(w, id, m + n) == Alone(w, id, m)
  {
    AloneAdds(w, id, m, n);
  }

  lemma LoadEnds(w: Window, id: CallId)
    requires id in w.calls && w.calls[id].pc.Load? && w.word < WINDOW_RESETTING && w.calls[id].second < WINDOW_RESETTING
    ensures var after := Alone(w, id, 7); id in after.calls && after.calls[id].pc.Done?
    ensures Alone(w, id, 8) == Alone(w, id, 7)
  {
    if w.word < w.calls[id].second {
      NewSecondOpensWindow(w, id, 0, 0);
    } else {
      PublishedSecondCounts(w, id, 0, 0);
      DoneStays(w, id, 3, 4);
    }
    DoneStays(w, id, 7, 1);
  }
}
