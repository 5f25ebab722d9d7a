/** The live-authorization cache: account rows cached under a key that carries the
    credential's stamp and the current second. The caches are modelled at their
    worst: a lookup may return any entry ever produced under the key, by any
    replica and however long ago. The stamp hash is injective and the replicas
    share one wall clock that does not run backwards. */
module LiveAuthorization {
  import opened Options

  type UserId = nat
  type Stamp = string
  type Time = real  // seconds since the Unix epoch

  datatype Role = Banned | User | Monitor | Admin

  datatype Row = Row(role: Role, stamp: Option<Stamp>)

  datatype CachedAuthorization = Found(id: UserId, role: Role, stamp: Option<Stamp>) | Missing

  datatype AuthResult = Principal(id: UserId, role: Role, stamp: Stamp) | Unauthorized | Forbidden

  function Authorize(entry: CachedAuthorization, expectedId: UserId, expectedStamp: Stamp): AuthResult {
    match entry
    case Missing => Unauthorized
    case Found(id, role, stamp) =>
      if id != expectedId || stamp != Some(expectedStamp) then Unauthorized
      else if role.Banned? then Forbidden
      else Principal(id, role, expectedStamp)
  }

  /** The account as the credential needs it. */
  predicate Acceptable(row: Option<Row>, stamp: Stamp) {
    row.Some? && row.value.stamp == Some(stamp) && !row.value.role.Banned?
  }

  function EntryOf(id: UserId, row: Option<Row>): CachedAuthorization {
    match row
    case None => Missing
    case Some(r) => Found(id, r.role, r.stamp)
  }

  /** Exactly the acceptable rows authorize, and with the row's own role. */
  lemma AuthorizeIff(id: UserId, row: Option<Row>, stamp: Stamp)
    ensures Authorize(EntryOf(id, row), id, stamp) ==
            if Acceptable(row, stamp) then Principal(id, row.value.role, stamp)
            else if row.Some? && row.value.stamp == Some(stamp) then Forbidden
            else Unauthorized
  {
  }

  // ---- the database ----

  /** One committed change of one account row (`None` deletes it). */
  datatype Commit = Commit(time: Time, id: UserId, row: Option<Row>)

  /** The row after a history of commits. */
  function RowIn(history: seq<Commit>, id: UserId): Option<Row> {
    if history == [] then None
    else
      var last := history[|history| - 1];
      if last.id == id then last.row else RowIn(history[..|history| - 1], id)
  }

  /** A commit replaces the row of its account and of no other; before the first one an
      account has none. */
  lemma CommitReplacesRow(history: seq<Commit>, last: Commit, id: UserId)
    ensures RowIn([], id) == None
    ensures RowIn(history + [last], last.id) == last.row
    ensures id != last.id ==> RowIn(history + [last], id) == RowIn(history, id)
  {
    assert (history + [last])[..|history|] == history;
  }

  // ---- requests, fills and answers ----

  datatype CacheKey = CacheKey(id: UserId, stamp: Stamp, window: int)

  function KeyAt(id: UserId, stamp: Stamp, now: Time): CacheKey { CacheKey(id, stamp, now.Floor) }

  /** A request: when, and after how many commits, its key was computed. */
  datatype Request = Request(id: UserId, stamp: Stamp, keyTime: Time, keyVersion: nat)

  /** An entry produced under a key: the request that filled it and the read. */
  datatype Fill = Fill(request: Request, entry: CachedAuthorization, readAt: Time, readVersion: nat)

  datatype Answer = Answer(request: Request, evidence: Fill, result: AuthResult)

  datatype State = State(now: Time, history: seq<Commit>, requests: set<Request>, fills: set<Fill>,
                         answers: set<Answer>)

  datatype Step =
    | Tick(now: Time)
    | Write(id: UserId, row: Option<Row>)
    | Begin(id: UserId, stamp: Stamp)
    | FillCache(request: Request)                // its closure reads the row and stores the entry
    | Respond(request: Request, evidence: Fill)  // a hit, a joined flight or its own fill

  function KeyOf(r: Request): CacheKey { KeyAt(r.id, r.stamp, r.keyTime) }

  predicate Enabled(s: State, step: Step) {
    match step
    case Tick(now) => s.now <= now
    case Write(_, _) => true
    case Begin(_, _) => true
    case FillCache(request) => request in s.requests
    case Respond(request, evidence) =>
      request in s.requests && evidence in s.fills && KeyOf(evidence.request) == KeyOf(request)
  }

  function Apply(s: State, step: Step): State
    requires Enabled(s, step)
  {
    match step
    case Tick(now) => s.(now := now)
    case Write(id, row) => s.(history := s.history + [Commit(s.now, id, row)])
    case Begin(id, stamp) => s.(requests := s.requests + {Request(id, stamp, s.now, |s.history|)})
    case FillCache(request) =>
      s.(fills := s.fills + {Fill(request, EntryOf(request.id, RowIn(s.history, request.id)), s.now, |s.history|)})
    case Respond(request, evidence) =>
      s.(answers := s.answers + {Answer(request, evidence, Authorize(evidence.entry, request.id, request.stamp))})
  }

  ghost function Exec(start: Time, run: seq<Step>): State {
    if run == [] then State(start, [], {}, {}, {})
    else
      var s := Exec(start, run[..|run| - 1]);
      if Enabled(s, run[|run| - 1]) then Apply(s, run[|run| - 1]) else s
  }

  /** Runs go step by step. The clock may move on, any row may be committed and any request
      may begin at any time; every request may fill the cache, and be answered from every
      entry under its key. */
  lemma RunsStepByStep(start: Time, run: seq<Step>, step: Step)
    ensures Exec(start, []) == State(start, [], {}, {}, {})
    ensures var s := Exec(start, run);
            && (Enabled(s, step) ==> Exec(start, run + [step]) == Apply(s, step))
            && (step.Write? || step.Begin? || (step.Tick? && step.now >= s.now) ==> Enabled(s, step))
            && (step.FillCache? && step.request in s.requests ==> Enabled(s, step))
            && (&& step.Respond? && step.request in s.requests && step.evidence in s.fills
                && KeyOf(step.evidence.request) == KeyOf(step.request) ==>
                  Enabled(s, step))
  {
    assert (run + [step])[..|run|] == run;
  }

  /** What each step does. */
  lemma StepsDo(s: State, step: Step)
    requires Enabled(s, step)
    ensures var s' := Apply(s, step);
            match step
            case Tick(now) => s' == State(now, s.history, s.requests, s.fills, s.answers)
            case Write(id, row) => s' == s.(history := s'.history) && s'.history == s.history + [Commit(s.now, id, row)]
            case Begin(id, stamp) =>
              s' == s.(requests := s'.requests) && s'.requests == s.requests + {Request(id, stamp, s.now, |s.history|)}
            case FillCache(request) =>
              && s' == s.(fills := s'.fills)
              && exists fill: Fill :: fill.request == request && fill.readAt == s.now && fill.readVersion == |s.history|
                                && s'.fills == s.fills + {fill}
            case Respond(request, evidence) =>
              && s' == s.(answers := s'.answers)
              && exists answer: Answer :: answer.request == request && answer.evidence == evidence
                                  && s'.answers == s.answers + {answer}
  {
    if step.FillCache? {
      var entry := EntryOf(step.request.id, RowIn(s.history, step.request.id));
      assert Fill(step.request, entry, s.now, |s.history|).request == step.request;
    } else if step.Respond? {
      var result := Authorize(step.evidence.entry, step.request.id, step.request.stamp);
      assert Answer(step.request, step.evidence, result).request == step.request;
    }
  }

  /** At any time a request may begin, fill the cache itself and be answered; it is then
      told what the account's row warrants. */
  lemma AnyRequestCanBeAnswered(start: Time, run: seq<Step>, id: UserId, stamp: Stamp)
    ensures var s := Exec(start, run);
            var request := Request(id, stamp, s.now, |s.history|);
            var row := RowIn(s.history, id);
            var fill := Fill(request, EntryOf(id, row), s.now, |s.history|);
            var after := Exec(start, run + [Begin(id, stamp)] + [FillCache(request)] + [Respond(request, fill)]);
            exists a :: a in after.answers && a.request == request && a.evidence == fill
                        && (a.result == if Acceptable(row, stamp) then Principal(id, row.value.role, stamp)
                                        else if row.Some? && row.value.stamp == Some(stamp) then Forbidden
                                        else Unauthorized)
  {
    var s := Exec(start, run);
    var request := Request(id, stamp, s.now, |s.history|);
    var row := RowIn(s.history, id);
    var fill := Fill(request, EntryOf(id, row), s.now, |s.history|);
    var r1 := run + [Begin(id, stamp)];
    var r2 := r1 + [FillCache(request)];
    hide Authorize, RowIn, EntryOf;
    RunsStepByStep(start, run, Begin(id, stamp));
    RunsStepByStep(start, r1, FillCache(request));
    RunsStepByStep(start, r2, Respond(request, fill));
    AuthorizeIff(id, row, stamp);
    var a := Answer(request, fill, Authorize(fill.entry, id, stamp));
    assert a in Exec(start, r2 + [Respond(request, fill)]).answers;
  }

  // ---- what every run keeps ----

  /** Commit times are in order and no later than the present. */
  ghost predicate HistoryInv(s: State) {
    && (forall i :: 0 <= i < |s.history| ==> s.history[i].time <= s.now)
    && forall i, j :: 0 <= i < j < |s.history| ==> s.history[i].time <= s.history[j].time
  }

  /** `version` is a state of the database that was current at time `t`. */
  ghost predicate CurrentAt(history: seq<Commit>, version: nat, t: Time) {
    && version <= |history|
    && (forall i :: 0 <= i < version ==> history[i].time <= t)
    && forall i :: version <= i < |history| ==> t <= history[i].time
  }

  ghost predicate RequestInv(s: State, r: Request) {
    r.keyTime <= s.now && CurrentAt(s.history, r.keyVersion, r.keyTime)
  }

  ghost predicate FillInv(s: State, f: Fill) {
    && f.request in s.requests
    && f.request.keyTime <= f.readAt <= s.now && f.request.keyVersion <= f.readVersion
    && CurrentAt(s.history, f.readVersion, f.readAt)
    && f.entry == EntryOf(f.request.id, RowIn(s.history[..f.readVersion], f.request.id))
  }

  ghost predicate AnswerInv(s: State, a: Answer) {
    && a.request in s.requests && a.evidence in s.fills && KeyOf(a.evidence.request) == KeyOf(a.request)
    && a.result == Authorize(a.evidence.entry, a.request.id, a.request.stamp)
  }

  ghost predicate Inv(s: State) {
    && HistoryInv(s)
    && (forall r :: r in s.requests ==> RequestInv(s, r))
    && (forall f :: f in s.fills ==> FillInv(s, f))
    && (forall a :: a in s.answers ==> AnswerInv(s, a))
  }

  lemma StepInv(s: State, step: Step)
    requires Inv(s) && Enabled(s, step)
    ensures Inv(Apply(s, step))
  {
    var s' := Apply(s, step);
    forall r | r in s'.requests ensures RequestInv(s', r) {
      assert r in s.requests ==> RequestInv(s, r);
    }
    forall f | f in s'.fills ensures FillInv(s', f) {
      if f in s.fills {
        assert FillInv(s, f);
        assert s'.history[..f.readVersion] == s.history[..f.readVersion];
      } else {
        assert RequestInv(s, f.request);
        assert s.history[..|s.history|] == s.history;
      }
    }
    forall a | a in s'.answers ensures AnswerInv(s', a) {
      assert a in s.answers ==> AnswerInv(s, a);
    }
  }

  lemma {:induction false} RunInv(start: Time, run: seq<Step>)
    ensures Inv(Exec(start, run))
  {
    if run != [] {
      RunInv(start, run[..|run| - 1]);
      var s := Exec(start, run[..|run| - 1]);
      if Enabled(s, run[|run| - 1]) {
        StepInv(s, run[|run| - 1]);
      }
    }
  }

  // ---- the promises ----

  /** Every answer rests on one committed state of the account that was read less
      than a second before the request's key was computed, or later, and it is what
      that row warrants. */
  lemma AnswersRestOnRecentRow(start: Time, run: seq<Step>, a: Answer)
    requires a in Exec(start, run).answers
    ensures var s, f := Exec(start, run), a.evidence;
            && f.readAt > a.request.keyTime - 1.0
            && CurrentAt(s.history, f.readVersion, f.readAt)
            && a.result == Authorize(EntryOf(a.request.id, RowIn(s.history[..f.readVersion], a.request.id)),
                                     a.request.id, a.request.stamp)
  {
    var s, f := Exec(start, run), a.evidence;
    RunInv(start, run);
    assert AnswerInv(s, a) && FillInv(s, f);
    assert f.request.keyTime.Floor == a.request.keyTime.Floor;
  }

  /** A ban, a deletion or a stamp rotation therefore bites after one second: if no
      state from commit `c` on accepts the credential, no request whose key is
      computed a second or more after that commit is let in, whatever the caches
      return. */
  lemma RevocationWithinOneSecond(start: Time, run: seq<Step>, a: Answer, c: nat)
    requires a in Exec(start, run).answers
    requires var s := Exec(start, run);
             && c < |s.history| && s.history[c].time + 1.0 <= a.request.keyTime
             && forall v :: c < v <= |s.history| ==> !Acceptable(RowIn(s.history[..v], a.request.id), a.request.stamp)
    ensures !a.result.Principal?
  {
    var s, f := Exec(start, run), a.evidence;
    AnswersRestOnRecentRow(start, run, a);
    assert f.readVersion > c;
    AuthorizeIff(a.request.id, RowIn(s.history[..f.readVersion], a.request.id), a.request.stamp);
  }

  /** And a fresh credential works at once: if a stamp was never presented before
      commit `c` and every state from that commit on accepts it, every answer to it
      lets it in, with the role of the row that was read. */
  lemma FreshStampAcceptedAtOnce(start: Time, run: seq<Step>, a: Answer, c: nat)
    requires a in Exec(start, run).answers
    requires var s := Exec(start, run);
             && (forall r :: r in s.requests && r.id == a.request.id && r.stamp == a.request.stamp ==> r.keyVersion > c)
             && forall v :: c < v <= |s.history| ==> Acceptable(RowIn(s.history[..v], a.request.id), a.request.stamp)
    ensures var s := Exec(start, run);
            && c < a.evidence.readVersion <= |s.history|
            && a.result == Principal(a.request.id, RowIn(s.history[..a.evidence.readVersion], a.request.id).value.role,
                                     a.request.stamp)
  {
    var s, f := Exec(start, run), a.evidence;
    RunInv(start, run);
    assert AnswerInv(s, a) && FillInv(s, f);
    AnswersRestOnRecentRow(start, run, a);
    AuthorizeIff(a.request.id, RowIn(s.history[..f.readVersion], a.request.id), a.request.stamp);
  }
}
