/** Grouping rows, flags and losses into one batch per game. */
module Batching {
  import opened Sums
  import opened Telemetry
  import opened FlagDedup
  import opened CaptureProtocol
  import opened FlowAggregation

  type Batches = map<int, TelemetryBatch>

  /** What has been put into batches so far. */
  datatype Done = Done(rows: map<Slot, FlowBucket>, dns: map<DnsKey, DnsBucket>, flags: seq<Sighting>,
                       drops: map<int, Drops>)

  function RowSlot(gameId: int, row: FlowBucket): Slot { Slot(gameId, row.peer.peerId, row.bucketStart) }

  function RowDnsKey(gameId: int, row: DnsBucket): DnsKey {
    DnsKey(gameId, row.peer.peerId, row.category, row.bucketStart)
  }

  /** A game's rows are listed exactly once each. */
  ghost predicate ListsFlows(listed: seq<FlowBucket>, gameId: int, rows: map<Slot, FlowBucket>) {
    && (forall i :: 0 <= i < |listed| ==>
          RowSlot(gameId, listed[i]) in rows && rows[RowSlot(gameId, listed[i])] == listed[i])
    && (forall i, j :: 0 <= i < j < |listed| ==> RowSlot(gameId, listed[i]) != RowSlot(gameId, listed[j]))
    && (forall slot :: slot in rows && slot.gameId == gameId ==> rows[slot] in listed)
  }

  ghost predicate ListsDns(listed: seq<DnsBucket>, gameId: int, rows: map<DnsKey, DnsBucket>) {
    && (forall i :: 0 <= i < |listed| ==>
          RowDnsKey(gameId, listed[i]) in rows && rows[RowDnsKey(gameId, listed[i])] == listed[i])
    && (forall i, j :: 0 <= i < j < |listed| ==> RowDnsKey(gameId, listed[i]) != RowDnsKey(gameId, listed[j]))
    && (forall key :: key in rows && key.gameId == gameId ==> rows[key] in listed)
  }

  ghost predicate Holds(b: TelemetryBatch, gameId: int, done: Done) {
    && b.gameId == gameId && b.peerNetworks == []
    && ListsFlows(b.flows, gameId, done.rows) && ListsDns(b.dnsProviders, gameId, done.dns)
    && b.flagTransports == FlagsOf(done.flags, gameId)
    && b.droppedRows == Min(DropsOf(done.drops, gameId).rows, I64_MAX)
    && b.droppedBytes == Min(DropsOf(done.drops, gameId).bytes, I64_MAX)
  }

  ghost predicate Absent(gameId: int, done: Done) {
    && (forall slot :: slot in done.rows ==> slot.gameId != gameId)
    && (forall key :: key in done.dns ==> key.gameId != gameId)
    && FlagsOf(done.flags, gameId) == [] && gameId !in done.drops
  }

  /** A batch for exactly the games that have something to say. */
  ghost predicate Built(batches: Batches, done: Done) {
    forall g :: if g in batches
                then Holds(batches[g], g, done) && (PayloadRows(batches[g]) > 0 || g in done.drops)
                else Absent(g, done)
  }

  function Entry(batches: Batches, gameId: int, id: Uuid): TelemetryBatch {
    if gameId in batches then batches[gameId] else EmptyBatch(id, gameId)
  }

  lemma EntryHolds(batches: Batches, done: Done, gameId: int, id: Uuid)
    requires Built(batches, done)
    ensures Holds(Entry(batches, gameId, id), gameId, done)
  {
    hide FlagsOf;
  }

  lemma AddFlow(batches: Batches, done: Done, slot: Slot, row: FlowBucket, id: Uuid)
    requires Built(batches, done) && slot !in done.rows && RowSlot(slot.gameId, row) == slot
    ensures var e := Entry(batches, slot.gameId, id);
            Built(batches[slot.gameId := e.(flows := e.flows + [row])], done.(rows := done.rows[slot := row]))
  {
    hide FlagsOf, ListsDns, DropsOf;
    EntryHolds(batches, done, slot.gameId, id);
    var e, after := Entry(batches, slot.gameId, id), done.(rows := done.rows[slot := row]);
    ListsOneMore(e.flows, slot.gameId, done.rows, slot, row);
    forall g | g in batches && g != slot.gameId ensures Holds(batches[g], g, after) {
      assert Holds(batches[g], g, done);
    }
    forall g | g !in batches && g != slot.gameId ensures Absent(g, after) {
      assert Absent(g, done);
    }
  }

  lemma ListsOneMore(listed: seq<FlowBucket>, gameId: int, rows: map<Slot, FlowBucket>, slot: Slot, row: FlowBucket)
    requires ListsFlows(listed, gameId, rows) && slot !in rows && RowSlot(gameId, row) == slot
    ensures ListsFlows(listed + [row], gameId, rows[slot := row])
  {
    forall s | s in rows && s.gameId == gameId ensures rows[s] in listed + [row] {
      assert rows[s] in listed;
    }
    assert (listed + [row])[|listed|] == row;
  }

  lemma AddDns(batches: Batches, done: Done, key: DnsKey, row: DnsBucket, id: Uuid)
    requires Built(batches, done) && key !in done.dns && RowDnsKey(key.gameId, row) == key
    ensures var e := Entry(batches, key.gameId, id);
            Built(batches[key.gameId := e.(dnsProviders := e.dnsProviders + [row])], done.(dns := done.dns[key := row]))
  {
    hide FlagsOf, ListsFlows, DropsOf;
    EntryHolds(batches, done, key.gameId, id);
    var e, after := Entry(batches, key.gameId, id), done.(dns := done.dns[key := row]);
    ListsOneMoreDns(e.dnsProviders, key.gameId, done.dns, key, row);
    forall g | g in batches && g != key.gameId ensures Holds(batches[g], g, after) {
      assert Holds(batches[g], g, done);
    }
    forall g | g !in batches && g != key.gameId ensures Absent(g, after) {
      assert Absent(g, done);
    }
  }

  lemma ListsOneMoreDns(listed: seq<DnsBucket>, gameId: int, rows: map<DnsKey, DnsBucket>, key: DnsKey, row: DnsBucket)
    requires ListsDns(listed, gameId, rows) && key !in rows && RowDnsKey(gameId, row) == key
    ensures ListsDns(listed + [row], gameId, rows[key := row])
  {
    forall k | k in rows && k.gameId == gameId ensures rows[k] in listed + [row] {
      assert rows[k] in listed;
    }
    assert (listed + [row])[|listed|] == row;
  }

  lemma AddFlag(batches: Batches, done: Done, s: Sighting, id: Uuid)
    requires Built(batches, done)
    ensures var e := Entry(batches, s.gameId, id);
            Built(batches[s.gameId := e.(flagTransports := e.flagTransports + [s.flag])],
                  done.(flags := done.flags + [s]))
  {
    hide ListsFlows, ListsDns, DropsOf;
    EntryHolds(batches, done, s.gameId, id);
    var after := done.(flags := done.flags + [s]);
    assert (done.flags + [s])[..|done.flags|] == done.flags;
    forall g | g in batches && g != s.gameId ensures Holds(batches[g], g, after) {
      assert Holds(batches[g], g, done);
    }
    forall g | g !in batches && g != s.gameId ensures Absent(g, after) {
      assert Absent(g, done);
    }
  }

  lemma AddDrops(batches: Batches, done: Done, gameId: int, drops: Drops, id: Uuid)
    requires Built(batches, done) && gameId !in done.drops
    ensures var e := Entry(batches, gameId, id);
            Built(batches[gameId := e.(droppedRows := Min(drops.rows, I64_MAX),
                                       droppedBytes := Min(drops.bytes, I64_MAX))],
                  done.(drops := done.drops[gameId := drops]))
  {
    hide ListsFlows, ListsDns, FlagsOf;
    EntryHolds(batches, done, gameId, id);
    var after := done.(drops := done.drops[gameId := drops]);
    forall g | g in batches && g != gameId ensures Holds(batches[g], g, after) {
      assert Holds(batches[g], g, done);
    }
    forall g | g !in batches && g != gameId ensures Absent(g, after) {
      assert Absent(g, done);
    }
  }

  /** The batches of a map, in any order. */
  ghost predicate Values(batches: Batches, listed: seq<TelemetryBatch>, games: set<int>) {
    && OnePerGame(listed)
    && (forall i :: 0 <= i < |listed| ==>
          listed[i].gameId in games && listed[i].gameId in batches && batches[listed[i].gameId] == listed[i])
    && (forall g :: g in games ==> HasBatch(listed, g))
  }

  lemma ValuesStep(batches: Batches, listed: seq<TelemetryBatch>, games: set<int>, gameId: int)
    requires Values(batches, listed, games) && gameId in batches && gameId !in games && batches[gameId].gameId == gameId
    ensures Values(batches, listed + [batches[gameId]], games + {gameId})
  {
    var longer := listed + [batches[gameId]];
    forall g | g in games + {gameId} ensures HasBatch(longer, g) {
      if g == gameId {
        assert longer[|listed|].gameId == g;
      } else {
        var i :| 0 <= i < |listed| && listed[i].gameId == g;
        assert longer[i].gameId == g;
      }
    }
  }

  lemma BuiltIsCollected(core: Core, batches: Batches, done: Done, listed: seq<TelemetryBatch>)
    requires Built(batches, done) && Values(batches, listed, batches.Keys)
    requires done.flags == core.tracker.flags && done.drops == core.drops
    ensures Collected(core, listed)
  {
    hide FlagsOf, ListsFlows, ListsDns, DropsOf, OnePerGame;
    forall i | 0 <= i < |listed| ensures Collects(core, listed[i]) {
      assert Holds(batches[listed[i].gameId], listed[i].gameId, done);
    }
    forall g | g in core.drops || FlagsOf(core.tracker.flags, g) != [] ensures HasBatch(listed, g) {
      assert !Absent(g, done);
      assert g in batches;
    }
  }

  // ---- walking over a table in any order ----

  ghost predicate Visiting<K(!new)>(todo: set<K>, done: set<K>, all: set<K>) {
    todo !! done && todo + done == all
  }

  lemma VisitStart<K(!new)>(all: set<K>)
    ensures Visiting(all, {}, all)
  {}

  /** The next entry of a hash table: any that is left. */
  method Next<K(==)>(todo: set<K>) returns (next: K)
    requires todo != {}
    ensures next in todo
  {
    next :| next in todo;
  }

  lemma VisitStep<K(!new)>(todo: set<K>, done: set<K>, all: set<K>, next: K)
    requires Visiting(todo, done, all) && next in todo
    ensures next !in done && next in all && Visiting(todo - {next}, done + {next}, all)
  {}

  /** What is left of a hash table once the entries in `gone` are taken out. */
  ghost function Without<K, V>(all: map<K, V>, gone: set<K>): map<K, V> { all - gone }

  lemma WithoutNone<K, V>(all: map<K, V>)
    ensures Without(all, {}) == all
  {
    assert all - {} == all;
  }

  lemma WithoutOneMore<K, V>(all: map<K, V>, gone: set<K>, key: K)
    requires key in all && key !in gone
    ensures key in Without(all, gone) && Without(all, gone)[key] == all[key]
    ensures Without(all, gone) - {key} == Without(all, gone + {key})
  {
    assert all - (gone + {key}) == all - gone - {key};
  }

  lemma VisitEnd<K(!new)>(done: set<K>, all: set<K>)
    requires Visiting({}, done, all)
    ensures done == all
  {
    assert {} + done == done;
  }

  lemma DropOneMore<K, V>(m: map<K, V>, gone: set<K>, next: K)
    ensures m - (gone + {next}) == m - gone - {next}
    ensures next !in gone ==> (next in m - gone <==> next in m)
    ensures next in m && next !in gone ==> (m - gone)[next] == m[next]
  {}

  ghost function Restrict<K, V>(m: map<K, V>, keys: set<K>): map<K, V> {
    map k | k in m && k in keys :: m[k]
  }

  lemma RestrictNone<K, V>(m: map<K, V>)
    ensures Restrict(m, {}) == map[]
  {}

  lemma RestrictAll<K, V>(m: map<K, V>)
    ensures Restrict(m, m.Keys) == m
  {}

  lemma RestrictOneMore<K, V>(m: map<K, V>, keys: set<K>, next: K)
    requires next in m && next !in keys
    ensures next !in Restrict(m, keys) && Restrict(m, keys + {next}) == Restrict(m, keys)[next := m[next]]
  {}
}
