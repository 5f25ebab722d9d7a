/** Which pattern hits of a packet are flag sightings, and what is told about them. */
module FlagSightings {
  import opened Options
  import opened Sums
  import opened Telemetry
  import opened FlagDedup

  /** A peer and what its game wants to know about it. */
  datatype PeerContext = PeerContext(gameId: int, peer: SensorPeer, behavior: bool, flagScan: bool, dns: bool)

  datatype Packet = Packet(outbound: bool, remote: nat, remotePort: nat, protocol: nat, syn: bool, payload: seq<Byte>)

  /** A flag pattern that the matcher found. */
  datatype Match = Match(gameId: int, owner: int, challengeId: int, valueHash: string)

  /** Matches that count: of this game, and not the receiving team's own flag. */
  function Relevant(ctx: PeerContext, packet: Packet, now: Instant, found: seq<Match>): seq<Sighting> {
    if found == [] then []
    else
      var last := found[|found| - 1];
      Relevant(ctx, packet, now, found[..|found| - 1]) +
      if last.gameId != ctx.gameId || last.owner == ctx.peer.participationId then []
      else [Sighting(ctx.gameId, FlagOf(ctx, packet, now, last))]
  }

  function FlagOf(ctx: PeerContext, packet: Packet, now: Instant, m: Match): FlagTransport {
    FlagTransport(ctx.peer, m.owner, m.valueHash, if packet.protocol == 6 then 0 else 1,
                  if packet.outbound then 0 else 1, m.challengeId, now)
  }

  // ---- what is told, said without saying how ----

  /** The hit is a flag of the peer's game that belongs to another participation. */
  ghost predicate IsLeak(ctx: PeerContext, m: Match) {
    m.gameId == ctx.gameId && ctx.peer.participationId != m.owner
  }

  /** The sighting names the hit, its receiver, the transport (0 for TCP), the direction
      (0 for outbound) and the time. */
  ghost predicate Tells(ctx: PeerContext, packet: Packet, now: Instant, m: Match, s: Sighting) {
    && s.gameId == ctx.gameId && s.flag.peer == ctx.peer && s.flag.observedAt == now
    && s.flag.owner == m.owner && s.flag.challengeId == m.challengeId && s.flag.valueHash == m.valueHash
    && s.flag.transport in {0, 1} && (s.flag.transport == 0 <==> packet.protocol == 6)
    && s.flag.direction in {0, 1} && (s.flag.direction == 0 <==> packet.outbound)
  }

  /** `told` has, in order, one sighting for each leak and none for any other hit;
      `picks` are the positions of the leaks. */
  ghost predicate TellsHits(ctx: PeerContext, packet: Packet, now: Instant, found: seq<Match>, told: seq<Sighting>,
                            picks: seq<nat>) {
    && |picks| == |told|
    && (forall j :: 0 <= j < |picks| ==> picks[j] < |found| && Tells(ctx, packet, now, found[picks[j]], told[j]))
    && (forall j, k :: 0 <= j < k < |picks| ==> picks[j] < picks[k])
    && (forall i :: 0 <= i < |found| ==> (i in picks <==> IsLeak(ctx, found[i])))
  }

  /** The tracker after it was offered the sightings of these hits, and how many of them
      found no place. */
  ghost predicate Reports(before: Tracker, ctx: PeerContext, packet: Packet, now: Instant, found: seq<Match>,
                          after: Tracker, dropped: nat) {
    exists told, picks ::
      && TellsHits(ctx, packet, now, found, told, picks)
      && after == TrackAll(before, told) && dropped == Refused(before, told)
  }

  lemma {:induction false} RelevantTells(ctx: PeerContext, packet: Packet, now: Instant, found: seq<Match>)
    returns (picks: seq<nat>)
    ensures TellsHits(ctx, packet, now, found, Relevant(ctx, packet, now, found), picks)
  {
    if found == [] {
      picks := [];
    } else {
      var n := |found| - 1;
      var before := RelevantTells(ctx, packet, now, found[..n]);
      picks := if IsLeak(ctx, found[n]) then before + [n] else before;
      PicksGrow(ctx, packet, now, found, Relevant(ctx, packet, now, found[..n]), before);
    }
  }

  /** One more hit adds its own sighting, if it is a leak, and nothing else. */
  lemma PicksGrow(ctx: PeerContext, packet: Packet, now: Instant, found: seq<Match>, told: seq<Sighting>,
                  picks: seq<nat>)
    requires found != [] && TellsHits(ctx, packet, now, found[..|found| - 1], told, picks)
    ensures var last := found[|found| - 1];
            if IsLeak(ctx, last)
            then TellsHits(ctx, packet, now, found, told + [Sighting(ctx.gameId, FlagOf(ctx, packet, now, last))],
                           picks + [|found| - 1])
            else TellsHits(ctx, packet, now, found, told, picks)
  {
    var n := |found| - 1;
    forall i | 0 <= i <= n ensures i in picks + [n] <==> i in picks || i == n {
    }
    forall i | 0 <= i < n ensures i in picks <==> IsLeak(ctx, found[i]) {
      assert found[..n][i] == found[i];
    }
    assert n !in picks;
  }

  /** So the hits determine what is told. */
  lemma ToldIsUnique(ctx: PeerContext, packet: Packet, now: Instant, found: seq<Match>,
                     a: seq<Sighting>, pa: seq<nat>, b: seq<Sighting>, pb: seq<nat>)
    requires TellsHits(ctx, packet, now, found, a, pa) && TellsHits(ctx, packet, now, found, b, pb)
    ensures a == b
  {
    SameMembers(pa, pb);
  }

  lemma HasMember(s: seq<nat>)
    requires s != []
    ensures exists x: nat :: x in s
  {
    assert s[0] in s;
  }

  lemma NothingToTell(t: Tracker, ctx: PeerContext, packet: Packet, now: Instant)
    ensures Reports(t, ctx, packet, now, [], t, 0)
  {
    assert TellsHits(ctx, packet, now, [], [], []);
    assert t == TrackAll(t, []) && Refused(t, []) == 0;
  }

  /** Two increasing sequences with the same members are equal. */
  lemma {:induction false} SameMembers(a: seq<nat>, b: seq<nat>)
    requires forall j, k :: 0 <= j < k < |a| ==> a[j] < a[k]
    requires forall j, k :: 0 <= j < k < |b| ==> b[j] < b[k]
    requires forall x: nat :: x in a <==> x in b
    ensures a == b
  {
    if a == [] {
      if b != [] {
        HasMember(b);
      }
    } else {
      var m, n := |a| - 1, |b| - 1;
      assert a[m] in b && b[n] in a;
      assert a[m] == b[n];
      forall x: nat ensures x in a[..m] <==> x in b[..n] {
        assert x in a[..m] <==> x in a && x != a[m];
        assert x in b[..n] <==> x in b && x != b[n];
      }
      SameMembers(a[..m], b[..n]);
      assert a == a[..m] + [a[m]] && b == b[..n] + [b[n]];
    }
  }
}
