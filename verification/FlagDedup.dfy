/** One report per outstanding flag sighting: the set of keys the sensor has
    queued and not yet had acknowledged. */
module FlagDedup {
  import opened Telemetry

  datatype FlagKey = FlagKey(gameId: int, peerId: Uuid, valueHash: string, transport: int, direction: int)

  datatype TrackResult = Queued | Duplicate | Capacity

  datatype Sighting = Sighting(gameId: int, flag: FlagTransport)

  function KeyOf(gameId: int, flag: FlagTransport): FlagKey {
    FlagKey(gameId, flag.peer.peerId, flag.valueHash, flag.transport, flag.direction)
  }

  /** Two sightings share a key exactly if game, peer, flag, transport and direction
      agree, whoever owns the flag and whenever it was seen. */
  lemma SameKeyIff(gameId: int, flag: FlagTransport, otherGame: int, other: FlagTransport)
    ensures KeyOf(gameId, flag) == KeyOf(otherGame, other) <==>
            && gameId == otherGame && flag.peer.peerId == other.peer.peerId && flag.valueHash == other.valueHash
            && flag.transport == other.transport && flag.direction == other.direction
  {
  }

  function KeysOf(gameId: int, flags: seq<FlagTransport>): seq<FlagKey> {
    seq(|flags|, i requires 0 <= i < |flags| => KeyOf(gameId, flags[i]))
  }

  /** The pending flags and the keys in use. */
  datatype Tracker = Tracker(flags: seq<Sighting>, seen: set<FlagKey>)

  function TrackResultOf(seen: set<FlagKey>, s: Sighting): TrackResult {
    if KeyOf(s.gameId, s.flag) in seen then Duplicate
    else if |seen| >= MAX_TRACKED_FLOWS then Capacity
    else Queued
  }

  function Track(t: Tracker, s: Sighting): Tracker {
    if TrackResultOf(t.seen, s).Queued?
    then Tracker(t.flags + [s], t.seen + {KeyOf(s.gameId, s.flag)})
    else t
  }

  /** A sighting is queued exactly when its key is new and there is room for one more,
      and then that sighting and its key are all that is added. */
  lemma TrackIs(t: Tracker, s: Sighting)
    ensures var key := FlagKey(s.gameId, s.flag.peer.peerId, s.flag.valueHash, s.flag.transport, s.flag.direction);
            && (TrackResultOf(t.seen, s) == Duplicate <==> key in t.seen)
            && (TrackResultOf(t.seen, s) == Queued <==> key !in t.seen && |t.seen| < 65_536)
            && (TrackResultOf(t.seen, s) == Queued ==> Track(t, s) == Tracker(t.flags + [s], t.seen + {key}))
            && (TrackResultOf(t.seen, s) != Queued ==> Track(t, s) == t)
  {
  }

  lemma TrackRefuses(t: Tracker, s: Sighting)
    requires !TrackResultOf(t.seen, s).Queued?
    ensures Track(t, s) == t
  {}

  function TrackAll(t: Tracker, found: seq<Sighting>): Tracker {
    if found == [] then t else Track(TrackAll(t, found[..|found| - 1]), found[|found| - 1])
  }

  /** Sightings refused because the set was full, along the way. */
  function Refused(t: Tracker, found: seq<Sighting>): nat {
    if found == [] then 0
    else
      var init := found[..|found| - 1];
      Refused(t, init) + if TrackResultOf(TrackAll(t, init).seen, found[|found| - 1]).Capacity? then 1 else 0
  }

  /** The positions of sightings whose keys are not in use. */
  ghost function Unseen(seen: set<FlagKey>, found: seq<Sighting>): set<nat> {
    set i: nat | i < |found| && KeyOf(found[i].gameId, found[i].flag) !in seen
  }

  /** Offering sightings in turn: nothing already queued is touched, one flag is queued
      for each new key, every key is in use afterwards unless the set is full, and
      exactly the sightings whose keys are not in use then were refused. */
  lemma {:induction false} TrackAllIs(t: Tracker, found: seq<Sighting>)
    ensures var after := TrackAll(t, found);
            && t.flags <= after.flags && t.seen <= after.seen
            && |after.flags| - |t.flags| == |after.seen| - |t.seen|
            && (forall j :: |t.flags| <= j < |after.flags| ==> after.flags[j] in found)
            && (Unseen(after.seen, found) != {} ==> |after.seen| >= MAX_TRACKED_FLOWS)
            && Refused(t, found) == |Unseen(after.seen, found)|
  {
    if found != [] {
      hide Track, TrackResultOf;
      var init, last := found[..|found| - 1], found[|found| - 1];
      TrackAllIs(t, init);
      TrackAllStep(TrackAll(t, init), init, last);
      assert found == init + [last];
    }
  }

  lemma UnseenSnoc(seen: set<FlagKey>, init: seq<Sighting>, last: Sighting)
    ensures Unseen(seen, init + [last]) ==
            Unseen(seen, init) + if KeyOf(last.gameId, last.flag) in seen then {} else {|init|}
    ensures |Unseen(seen, init + [last])| ==
            |Unseen(seen, init)| + if KeyOf(last.gameId, last.flag) in seen then 0 else 1
  {
    var found, all := init + [last], Unseen(seen, init + [last]);
    assert forall i :: 0 <= i < |init| ==> found[i] == init[i];
    assert found[|init|] == last;
    assert all == Unseen(seen, init) + if KeyOf(last.gameId, last.flag) in seen then {} else {|init|};
  }

  lemma UnseenShrinks(seen: set<FlagKey>, key: FlagKey, found: seq<Sighting>)
    requires Unseen(seen, found) == {}
    ensures Unseen(seen + {key}, found) == {}
  {
    forall i: nat | i < |found| ensures KeyOf(found[i].gameId, found[i].flag) in seen {
      assert i !in Unseen(seen, found);
    }
  }

  lemma TrackAllStep(t: Tracker, init: seq<Sighting>, last: Sighting)
    requires Unseen(t.seen, init) != {} ==> |t.seen| >= MAX_TRACKED_FLOWS
    ensures var after, found := Track(t, last), init + [last];
            && t.flags <= after.flags && t.seen <= after.seen
            && |after.flags| - |t.flags| == |after.seen| - |t.seen|
            && (forall j :: |t.flags| <= j < |after.flags| ==> after.flags[j] == last)
            && (Unseen(after.seen, found) != {} ==> |after.seen| >= MAX_TRACKED_FLOWS)
            && |Unseen(after.seen, found)| ==
               |Unseen(t.seen, init)| + if TrackResultOf(t.seen, last).Capacity? then 1 else 0
  {
    hide Unseen;
    UnseenSnoc(Track(t, last).seen, init, last);
    if TrackResultOf(t.seen, last).Queued? {
      UnseenShrinks(t.seen, KeyOf(last.gameId, last.flag), init);
    }
  }

  function Released(seen: set<FlagKey>, keys: seq<FlagKey>): set<FlagKey> {
    set k | k in seen && k !in keys
  }

  /** The keys of everything outstanding, counted with multiplicity. */
  ghost function Gather<T(!new)>(keys: T -> multiset<FlagKey>, items: seq<T>): multiset<FlagKey> {
    if items == [] then multiset{} else keys(items[0]) + Gather(keys, items[1..])
  }

  lemma GatherNothing<T(!new)>(keys: T -> multiset<FlagKey>)
    ensures Gather(keys, []) == multiset{}
  {
  }

  lemma {:induction false} GatherAppend<T(!new)>(keys: T -> multiset<FlagKey>, a: seq<T>, b: seq<T>)
    ensures Gather(keys, a + b) == Gather(keys, a) + Gather(keys, b)
  {
    if a == [] {
      assert a + b == b;
    } else {
      assert (a + b)[1..] == a[1..] + b;
      GatherAppend(keys, a[1..], b);
    }
  }

  lemma GatherOne<T(!new)>(keys: T -> multiset<FlagKey>, item: T)
    ensures Gather(keys, [item]) == keys(item)
  {
    assert [item][1..] == [];
  }

  /** Releasing keys that are in use once removes exactly them. */
  lemma ReleasedExactly(seen: set<FlagKey>, rest: multiset<FlagKey>, keys: seq<FlagKey>)
    requires multiset(seen) == rest + multiset(keys)
    ensures multiset(Released(seen, keys)) == rest
  {
    forall k ensures multiset(Released(seen, keys))[k] == rest[k] {
      assert multiset(seen)[k] == rest[k] + multiset(keys)[k];
      assert k in keys <==> k in multiset(keys);
    }
  }

  lemma ReleasedSize(seen: set<FlagKey>, keys: seq<FlagKey>)
    ensures |Released(seen, keys)| <= |seen|
  {
    var gone := seen - Released(seen, keys);
    assert seen == Released(seen, keys) + gone;
    assert Released(seen, keys) !! gone;
  }

  lemma KeysSplit(gameId: int, flags: seq<FlagTransport>, n: nat)
    requires n <= |flags|
    ensures KeysOf(gameId, flags) == KeysOf(gameId, flags[..n]) + KeysOf(gameId, flags)[n..]
    ensures KeysOf(gameId, flags)[..n] == KeysOf(gameId, flags[..n])
  {}
}
