/** Three-level connection permits of the WebSocket hubs: a global pool, a count
    per client and a count per scope, taken one after the other by concurrent
    tasks, rolled back when a later level refuses, and given back on drop. */
module ConnectionPermits {
  import opened Sums

  datatype Scope = Game(id: int) | Global

  datatype Limits = Limits(perClient: nat, perGame: nat, globalScope: nat)

  function ScopeLimit(scope: Scope, limits: Limits): nat {
    if scope.Game? then limits.perGame else limits.globalScope
  }

  // ---- the shared count maps; each operation is one atomic entry access ----

  datatype Incremented<K> = Incremented(counts: map<K, nat>, ok: bool)

  function Increment<K>(counts: map<K, nat>, key: K, limit: nat): Incremented<K> {
    if key !in counts then Incremented(counts[key := 1], true)
    else if counts[key] < limit then Incremented(counts[key := counts[key] + 1], true)
    else Incremented(counts, false)
  }

  function Release<K>(counts: map<K, nat>, key: K): map<K, nat> {
    if key !in counts then counts
    else if counts[key] <= 1 then counts - {key}
    else counts[key := counts[key] - 1]
  }

  function CountOf<K>(counts: map<K, nat>, key: K): nat { if key in counts then counts[key] else 0 }

  /** Counting one holder in and out. A vacant key is always admitted, even under a
      limit of zero; apart from that the limit is exact. */
  lemma IncrementCounts<K>(counts: map<K, nat>, key: K, limit: nat, other: K)
    ensures var r := Increment(counts, key, limit);
            && (r.ok <==> CountOf(counts, key) < limit || key !in counts)
            && CountOf(r.counts, other) == CountOf(counts, other) + (if r.ok && other == key then 1 else 0)
  {
  }

  /** A release takes one from its key, if there is one to take, and never leaves a
      zero behind. */
  lemma ReleaseCounts<K>(counts: map<K, nat>, key: K, other: K)
    ensures var r := Release(counts, key);
            && CountOf(r, other) == CountOf(counts, other) - (if other == key && CountOf(counts, key) > 0 then 1 else 0)
            && (key in r ==> r[key] >= 1)
            && (other != key ==> (other in r <==> other in counts))
  {
  }

  // ---- tasks ----

  /** How far a task has come. `Live` is an established connection; the three drop
      in field order: pool permit, client, scope. */
  datatype Pc =
    | HasGlobal
    | HasClient
    | Live
    | ScopeRefused   // must release the client count
    | GivingBack     // only the pool permit is left
    | DroppedGlobal
    | DroppedClient

  datatype Task = Task(client: string, scope: Scope, pc: Pc)

  type TaskId = nat

  datatype State = State(free: nat, clients: map<string, nat>, scopes: map<Scope, nat>, tasks: map<TaskId, Task>)

  datatype Step = Begin(id: TaskId, client: string, scope: Scope) | Advance(id: TaskId)

  predicate HoldsGlobal(pc: Pc) { !pc.DroppedGlobal? && !pc.DroppedClient? }

  predicate HoldsClient(pc: Pc) { pc.HasClient? || pc.Live? || pc.ScopeRefused? || pc.DroppedGlobal? }

  predicate HoldsScope(pc: Pc) { pc.Live? || pc.DroppedGlobal? || pc.DroppedClient? }

  ghost predicate Enabled(s: State, step: Step) {
    match step
    case Begin(id, _, _) => id !in s.tasks && s.free > 0
    case Advance(id) => id in s.tasks
  }

  function At(s: State, id: TaskId, pc: Pc): State
    requires id in s.tasks
  {
    s.(tasks := s.tasks[id := s.tasks[id].(pc := pc)])
  }

  function Apply(s: State, limits: Limits, step: Step): State
    requires Enabled(s, step)
  {
    match step
    case Begin(id, client, scope) => s.(free := s.free - 1, tasks := s.tasks[id := Task(client, scope, HasGlobal)])
    case Advance(id) =>
      var task := s.tasks[id];
      match task.pc
      case HasGlobal =>
        var r := Increment(s.clients, task.client, limits.perClient);
        At(s, id, if r.ok then HasClient else GivingBack).(clients := r.counts)
      case HasClient =>
        var r := Increment(s.scopes, task.scope, ScopeLimit(task.scope, limits));
        At(s, id, if r.ok then Live else ScopeRefused).(scopes := r.counts)
      case ScopeRefused => At(s, id, GivingBack).(clients := Release(s.clients, task.client))
      case GivingBack => s.(free := s.free + 1, tasks := s.tasks - {id})
      case Live => At(s, id, DroppedGlobal).(free := s.free + 1)
      case DroppedGlobal => At(s, id, DroppedClient).(clients := Release(s.clients, task.client))
      case DroppedClient => s.(scopes := Release(s.scopes, task.scope), tasks := s.tasks - {id})
  }

  // ---- the invariant ----

  type Tasks = map<TaskId, Task>

  ghost function GlobalHolders(tasks: Tasks): set<TaskId> { set id | id in tasks && HoldsGlobal(tasks[id].pc) }

  ghost function ClientHolders(tasks: Tasks, client: string): set<TaskId> {
    set id | id in tasks && HoldsClient(tasks[id].pc) && tasks[id].client == client
  }

  ghost function ScopeHolders(tasks: Tasks, scope: Scope): set<TaskId> {
    set id | id in tasks && HoldsScope(tasks[id].pc) && tasks[id].scope == scope
  }

  function AtLeastOne(limit: nat): nat { if limit == 0 then 1 else limit }

  ghost predicate PoolBalanced(s: State, pool: nat) { s.free + |GlobalHolders(s.tasks)| == pool }

  ghost predicate ClientsBalanced(s: State, limits: Limits) {
    && (forall c :: CountOf(s.clients, c) == |ClientHolders(s.tasks, c)|)
    && (forall c :: c in s.clients ==> 1 <= s.clients[c] <= AtLeastOne(limits.perClient))
  }

  ghost predicate ScopesBalanced(s: State, limits: Limits) {
    && (forall k :: CountOf(s.scopes, k) == |ScopeHolders(s.tasks, k)|)
    && (forall k :: k in s.scopes ==> 1 <= s.scopes[k] <= AtLeastOne(ScopeLimit(k, limits)))
  }

  /** Every count is the number of tasks that hold the key right now, is never
      stored as zero and never exceeds its limit; pool permits are conserved. */
  ghost predicate Balanced(s: State, limits: Limits, pool: nat) {
    PoolBalanced(s, pool) && ClientsBalanced(s, limits) && ScopesBalanced(s, limits)
  }

  predicate GlobalAt(tasks: Tasks, id: TaskId) { id in tasks && HoldsGlobal(tasks[id].pc) }

  predicate ClientAt(tasks: Tasks, id: TaskId, client: string) {
    id in tasks && HoldsClient(tasks[id].pc) && tasks[id].client == client
  }

  predicate ScopeAt(tasks: Tasks, id: TaskId, scope: Scope) {
    id in tasks && HoldsScope(tasks[id].pc) && tasks[id].scope == scope
  }

  function One(b: bool): int { if b then 1 else 0 }

  /** A set that gains or loses at most `id` changes its size accordingly. */
  lemma SizeMoves(s: set<TaskId>, s': set<TaskId>, id: TaskId)
    requires s - {id} == s' - {id}
    ensures |s'| == |s| + One(id in s') - One(id in s)
    ensures id in s ==> |s| >= 1
  {
    var rest := s - {id};
    assert s == (if id in s then rest + {id} else rest);
    assert s' == (if id in s' then rest + {id} else rest);
  }

  ghost predicate AgreeExcept(a: Tasks, b: Tasks, id: TaskId) {
    forall x :: x != id ==> (x in a <==> x in b) && (x in a ==> a[x] == b[x])
  }

  lemma StepMovesOneTask(s: State, limits: Limits, step: Step)
    requires Enabled(s, step)
    ensures AgreeExcept(s.tasks, Apply(s, limits, step).tasks, step.id)
  {
    hide Increment, Release;
  }

  lemma HoldersMove(a: Tasks, b: Tasks, id: TaskId, client: string, scope: Scope)
    requires AgreeExcept(a, b, id)
    ensures |GlobalHolders(b)| == |GlobalHolders(a)| + One(GlobalAt(b, id)) - One(GlobalAt(a, id))
    ensures |ClientHolders(b, client)| ==
            |ClientHolders(a, client)| + One(ClientAt(b, id, client)) - One(ClientAt(a, id, client))
    ensures |ScopeHolders(b, scope)| ==
            |ScopeHolders(a, scope)| + One(ScopeAt(b, id, scope)) - One(ScopeAt(a, id, scope))
    ensures ClientAt(a, id, client) ==> |ClientHolders(a, client)| >= 1
    ensures ScopeAt(a, id, scope) ==> |ScopeHolders(a, scope)| >= 1
  {
    SizeMoves(GlobalHolders(a), GlobalHolders(b), id);
    SizeMoves(ClientHolders(a, client), ClientHolders(b, client), id);
    SizeMoves(ScopeHolders(a, scope), ScopeHolders(b, scope), id);
  }

  lemma PoolStep(s: State, limits: Limits, step: Step, pool: nat)
    requires PoolBalanced(s, pool) && Enabled(s, step)
    ensures PoolBalanced(Apply(s, limits, step), pool)
  {
    hide GlobalHolders, Increment, Release;
    StepMovesOneTask(s, limits, step);
    HoldersMove(s.tasks, Apply(s, limits, step).tasks, step.id, "", Global);
  }

  lemma ClientCountStep(s: State, limits: Limits, step: Step, key: string)
    requires ClientsBalanced(s, limits) && Enabled(s, step)
    ensures CountOf(Apply(s, limits, step).clients, key) == |ClientHolders(Apply(s, limits, step).tasks, key)|
  {
    hide GlobalHolders, ClientHolders, ScopeHolders, Increment, Release;
    var s' := Apply(s, limits, step);
    StepMovesOneTask(s, limits, step);
    HoldersMove(s.tasks, s'.tasks, step.id, key, Global);
    assert CountOf(s.clients, key) == |ClientHolders(s.tasks, key)|;
    if step.Advance? {
      var task := s.tasks[step.id];
      HoldersMove(s.tasks, s'.tasks, step.id, task.client, Global);
      assert CountOf(s.clients, task.client) == |ClientHolders(s.tasks, task.client)|;
      IncrementCounts(s.clients, task.client, limits.perClient, key);
      if task.client in s.clients {
        ReleaseCounts(s.clients, task.client, key);
      }
    }
  }

  lemma ClientsStep(s: State, limits: Limits, step: Step)
    requires ClientsBalanced(s, limits) && Enabled(s, step)
    ensures ClientsBalanced(Apply(s, limits, step), limits)
  {
    hide ClientHolders;
    forall key
      ensures CountOf(Apply(s, limits, step).clients, key) == |ClientHolders(Apply(s, limits, step).tasks, key)|
    {
      ClientCountStep(s, limits, step, key);
    }
  }

  lemma ScopeCountStep(s: State, limits: Limits, step: Step, key: Scope)
    requires ScopesBalanced(s, limits) && Enabled(s, step)
    ensures CountOf(Apply(s, limits, step).scopes, key) == |ScopeHolders(Apply(s, limits, step).tasks, key)|
  {
    hide GlobalHolders, ClientHolders, ScopeHolders, Increment, Release;
    var s' := Apply(s, limits, step);
    StepMovesOneTask(s, limits, step);
    HoldersMove(s.tasks, s'.tasks, step.id, "", key);
    assert CountOf(s.scopes, key) == |ScopeHolders(s.tasks, key)|;
    if step.Advance? {
      var task := s.tasks[step.id];
      HoldersMove(s.tasks, s'.tasks, step.id, "", task.scope);
      assert CountOf(s.scopes, task.scope) == |ScopeHolders(s.tasks, task.scope)|;
      IncrementCounts(s.scopes, task.scope, ScopeLimit(task.scope, limits), key);
      if task.scope in s.scopes {
        ReleaseCounts(s.scopes, task.scope, key);
      }
    }
  }

  lemma ScopesStep(s: State, limits: Limits, step: Step)
    requires ScopesBalanced(s, limits) && Enabled(s, step)
    ensures ScopesBalanced(Apply(s, limits, step), limits)
  {
    hide ScopeHolders;
    forall key
      ensures CountOf(Apply(s, limits, step).scopes, key) == |ScopeHolders(Apply(s, limits, step).tasks, key)|
    {
      ScopeCountStep(s, limits, step, key);
    }
  }

  // ---- whole runs ----

  ghost function Exec(limits: Limits, pool: nat, run: seq<Step>): State {
    if run == [] then State(pool, map[], map[], map[])
    else
      var s := Exec(limits, pool, run[..|run| - 1]);
      if Enabled(s, run[|run| - 1]) then Apply(s, limits, run[|run| - 1]) else s
  }

  /** Runs go step by step. A task may begin as long as the pool has a permit, and every
      task can always take its next step. */
  lemma RunsStepByStep(limits: Limits, pool: nat, run: seq<Step>, step: Step)
    ensures Exec(limits, pool, []) == State(pool, map[], map[], map[])
    ensures var s := Exec(limits, pool, run);
            && (Enabled(s, step) ==> Exec(limits, pool, run + [step]) == Apply(s, limits, step))
            && (step.Begin? && step.id !in s.tasks && s.free > 0 ==> Enabled(s, step))
            && (step.Advance? && step.id in s.tasks ==> Enabled(s, step))
  {
    assert (run + [step])[..|run|] == run;
  }

  /** In every interleaving of acquisitions, rollbacks and drops the counts are
      exact and bounded and no pool permit is lost or created. */
  lemma {:induction false} RunBalanced(limits: Limits, pool: nat, run: seq<Step>)
    ensures Balanced(Exec(limits, pool, run), limits, pool)
  {
    if run == [] {
      var s := Exec(limits, pool, run);
      assert GlobalHolders(s.tasks) == {};
      assert forall c :: ClientHolders(s.tasks, c) == {};
      assert forall k :: ScopeHolders(s.tasks, k) == {};
    } else {
      hide PoolBalanced, ClientsBalanced, ScopesBalanced;
      RunBalanced(limits, pool, run[..|run| - 1]);
      var s := Exec(limits, pool, run[..|run| - 1]);
      if Enabled(s, run[|run| - 1]) {
        PoolStep(s, limits, run[|run| - 1], pool);
        ClientsStep(s, limits, run[|run| - 1]);
        ScopesStep(s, limits, run[|run| - 1]);
      }
    }
  }

  /** When every permit is dropped, both maps are empty and the pool is full. */
  lemma AllDroppedIsPristine(limits: Limits, pool: nat, run: seq<Step>)
    requires Exec(limits, pool, run).tasks == map[]
    ensures Exec(limits, pool, run) == State(pool, map[], map[], map[])
  {
    var s := Exec(limits, pool, run);
    RunBalanced(limits, pool, run);
    assert GlobalHolders(s.tasks) == {};
    forall c ensures c !in s.clients {
      assert ClientHolders(s.tasks, c) == {};
      assert CountOf(s.clients, c) == 0;
    }
    forall k ensures k !in s.scopes {
      assert ScopeHolders(s.tasks, k) == {};
      assert CountOf(s.scopes, k) == 0;
    }
  }

  ghost function LiveOf(tasks: Tasks, wanted: Task -> bool): set<TaskId> {
    set id | id in tasks && tasks[id].pc.Live? && wanted(tasks[id])
  }

  /** Established connections respect all three ceilings at once. */
  lemma LiveConnectionsBounded(limits: Limits, pool: nat, run: seq<Step>, client: string, scope: Scope)
    ensures var tasks := Exec(limits, pool, run).tasks;
            && |LiveOf(tasks, _ => true)| <= pool
            && |LiveOf(tasks, (t: Task) => t.client == client)| <= Max(1, limits.perClient)
            && |LiveOf(tasks, (t: Task) => t.scope == scope)| <=
               Max(1, match scope case Game(_) => limits.perGame case Global => limits.globalScope)
  {
    var s := Exec(limits, pool, run);
    RunBalanced(limits, pool, run);
    assert CountOf(s.clients, client) == |ClientHolders(s.tasks, client)|;
    assert CountOf(s.scopes, scope) == |ScopeHolders(s.tasks, scope)|;
    SubsetSize(LiveOf(s.tasks, _ => true), GlobalHolders(s.tasks));
    SubsetSize(LiveOf(s.tasks, (t: Task) => t.client == client), ClientHolders(s.tasks, client));
    SubsetSize(LiveOf(s.tasks, (t: Task) => t.scope == scope), ScopeHolders(s.tasks, scope));
  }

  /** A task is turned away at the client or scope level only when that key has
      all the holders it may have. */
  lemma RefusalMeansFull(limits: Limits, pool: nat, run: seq<Step>, id: TaskId)
    requires var s := Exec(limits, pool, run);
             id in s.tasks && (s.tasks[id].pc.HasGlobal? || s.tasks[id].pc.HasClient?)
    ensures var s := Exec(limits, pool, run);
            var next := Apply(s, limits, Advance(id)).tasks[id].pc;
            var task := s.tasks[id];
            && (task.pc.HasGlobal? ==>
                  (next.GivingBack? <==> |ClientHolders(s.tasks, task.client)| >= Max(1, limits.perClient)))
            && (task.pc.HasClient? ==>
                  (next.ScopeRefused? <==>
                   |ScopeHolders(s.tasks, task.scope)| >=
                   Max(1, match task.scope case Game(_) => limits.perGame case Global => limits.globalScope)))
  {
    var s := Exec(limits, pool, run);
    RunBalanced(limits, pool, run);
    assert CountOf(s.clients, s.tasks[id].client) == |ClientHolders(s.tasks, s.tasks[id].client)|;
    assert CountOf(s.scopes, s.tasks[id].scope) == |ScopeHolders(s.tasks, s.tasks[id].scope)|;
  }

  /** Why the bound is one, not zero, under a limit of zero: a vacant key is
      inserted without looking at the limit. */
  lemma ZeroLimitAdmitsOne(client: string)
    ensures Increment(map[], client, 0).ok
    ensures forall counts: map<string, nat>, limit: nat ::
              limit > 0 && CountOf(counts, client) <= limit ==>
                CountOf(Increment(counts, client, limit).counts, client) <= limit
  {
  }
}
