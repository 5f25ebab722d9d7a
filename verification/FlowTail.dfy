/** The sliding tail that lets the sensor see flags cut by packet boundaries. */
module FlowTail {
  import opened Sums
  import opened Telemetry

  const MAX_FLOW_TAIL: nat := 126

  /** The last bytes of a stream, as many as a tail may hold. */
  function Last(stream: seq<Byte>): seq<Byte> {
    stream[|stream| - Min(|stream|, MAX_FLOW_TAIL)..]
  }

  /** Appending in place: what does not fit is dropped from the front. */
  method AppendTail(tail: seq<Byte>, payload: seq<Byte>) returns (r: seq<Byte>)
    ensures r == Last(tail + payload)
  {
    var whole := tail + payload;
    if |payload| >= MAX_FLOW_TAIL {
      r := [];
      r := r + payload[|payload| - MAX_FLOW_TAIL..];
      assert whole[|whole| - MAX_FLOW_TAIL..] == payload[|payload| - MAX_FLOW_TAIL..];
      return;
    }
    r := tail;
    var keep := Min(MAX_FLOW_TAIL - |payload|, |r|);
    if keep < |r| {
      r := r[|r| - keep..];
    }
    r := r + payload;
    assert whole[|tail| - keep..] == tail[|tail| - keep..] + payload;
  }

  function Buffer(before: seq<Byte>, payload: seq<Byte>): seq<Byte> { Last(before) + payload }

  /** Keeping only the tail loses nothing: the tail of the tail and a payload is the
      tail of the whole stream. */
  lemma LastOfAppend(before: seq<Byte>, payload: seq<Byte>)
    ensures Last(Last(before) + payload) == Last(before + payload)
  {
    var n := Min(|before|, MAX_FLOW_TAIL);
    assert before + payload == before[..|before| - n] + (Last(before) + payload);
  }

  /** `pattern` is in `s` at `i`. */
  predicate At(s: seq<Byte>, pattern: seq<Byte>, i: nat) {
    i + |pattern| <= |s| && s[i..i + |pattern|] == pattern
  }

  ghost predicate Contains(s: seq<Byte>, pattern: seq<Byte>) {
    exists i :: At(s, pattern, i)
  }

  /** The bytes of the first packets of a flow. */
  function Stream(packets: seq<seq<Byte>>): seq<Byte> {
    if packets == [] then [] else Stream(packets[..|packets| - 1]) + packets[|packets| - 1]
  }

  lemma StreamAppend(packets: seq<seq<Byte>>, payload: seq<Byte>)
    ensures Stream(packets + [payload]) == Stream(packets) + payload
  {
    assert (packets + [payload])[..|packets|] == packets;
  }

  /** What the matcher sees for packet `k`. */
  function Seen(packets: seq<seq<Byte>>, k: nat): seq<Byte>
    requires k < |packets|
  {
    Buffer(Stream(packets[..k]), packets[k])
  }

  /** Packet `k` carries byte `i` of the stream. */
  predicate Carries(packets: seq<seq<Byte>>, k: nat, i: nat) {
    k < |packets| && |Stream(packets[..k])| <= i < |Stream(packets[..k + 1])|
  }

  lemma {:induction false} StreamPrefix(packets: seq<seq<Byte>>, k: nat)
    requires k <= |packets|
    ensures Stream(packets[..k]) <= Stream(packets)
  {
    if k == |packets| {
      assert packets[..k] == packets;
    } else {
      StreamPrefix(packets[..|packets| - 1], k);
      assert packets[..|packets| - 1][..k] == packets[..k];
    }
  }

  lemma StreamSnoc(packets: seq<seq<Byte>>, k: nat)
    requires k < |packets|
    ensures Stream(packets[..k + 1]) == Stream(packets[..k]) + packets[k]
  {
    assert packets[..k + 1][..k] == packets[..k];
  }

  /** Every byte is carried by some packet. */
  lemma {:induction false} SomeoneCarries(packets: seq<seq<Byte>>, i: nat) returns (k: nat)
    requires i < |Stream(packets)|
    ensures Carries(packets, k, i)
  {
    var n := |packets|;
    if i < |Stream(packets[..n - 1])| {
      k := SomeoneCarries(packets[..n - 1], i);
      assert packets[..n - 1][..k] == packets[..k] && packets[..n - 1][..k + 1] == packets[..k + 1];
    } else {
      k := n - 1;
      assert packets[..n] == packets;
    }
  }

  /** The part of a stream that a buffer holds is its end. */
  lemma BufferIsSuffix(before: seq<Byte>, payload: seq<Byte>)
    ensures |Buffer(before, payload)| == Min(|before|, MAX_FLOW_TAIL) + |payload|
    ensures Buffer(before, payload) == (before + payload)[|before| - Min(|before|, MAX_FLOW_TAIL)..]
  {}

  lemma AtInSuffix(s: seq<Byte>, pattern: seq<Byte>, i: nat, from: nat)
    requires from <= i && At(s, pattern, i)
    ensures At(s[from..], pattern, i - from)
  {
    assert s[from..][i - from..i - from + |pattern|] == s[i..i + |pattern|];
  }

  lemma AtInPrefix(s: seq<Byte>, t: seq<Byte>, pattern: seq<Byte>, i: nat)
    requires t <= s && At(s, pattern, i) && i + |pattern| <= |t|
    ensures At(t, pattern, i)
  {
    assert t[i..i + |pattern|] == s[i..i + |pattern|];
  }

  lemma AtInWhole(s: seq<Byte>, t: seq<Byte>, pattern: seq<Byte>, i: nat, from: nat)
    requires t <= s && from <= |t| && At(t[from..], pattern, i)
    ensures At(s, pattern, from + i)
  {
    assert s[from + i..from + i + |pattern|] == t[from..][i..i + |pattern|];
  }

  /** Where in the flow the buffer of packet `k` begins. */
  ghost function SeenFrom(packets: seq<seq<Byte>>, k: nat): nat
    requires k < |packets|
  {
    |Stream(packets[..k])| - Min(|Stream(packets[..k])|, MAX_FLOW_TAIL)
  }

  /** For every cutting of a flow into packets and every occurrence of a pattern
      of at most 127 bytes: the buffer of the packet that carries its last byte
      holds it whole, at the place it has in the flow. */
  lemma EveryOccurrenceIsSeen(packets: seq<seq<Byte>>, pattern: seq<Byte>, i: nat, k: nat)
    requires 1 <= |pattern| <= MAX_FLOW_TAIL + 1
    requires At(Stream(packets), pattern, i) && Carries(packets, k, i + |pattern| - 1)
    ensures SeenFrom(packets, k) <= i && At(Seen(packets, k), pattern, i - SeenFrom(packets, k))
  {
    var before, from := Stream(packets[..k]), SeenFrom(packets, k);
    StreamPrefix(packets, k + 1);
    StreamSnoc(packets, k);
    AtInPrefix(Stream(packets), before + packets[k], pattern, i);
    AtInSuffix(before + packets[k], pattern, i, from);
    BufferIsSuffix(before, packets[k]);
  }

  lemma SightInWhole(s: seq<Byte>, before: seq<Byte>, payload: seq<Byte>, pattern: seq<Byte>)
    requires before + payload <= s && Contains(Buffer(before, payload), pattern)
    ensures Contains(s, pattern)
  {
    hide Buffer, At;
    var i: nat :| At(Buffer(before, payload), pattern, i);
    BufferIsSuffix(before, payload);
    AtInWhole(s, before + payload, pattern, i, |before| - Min(|before|, MAX_FLOW_TAIL));
  }

  /** Nothing is seen that the flow did not carry. */
  lemma EverySightIsReal(packets: seq<seq<Byte>>, pattern: seq<Byte>, k: nat)
    requires k < |packets| && Contains(Seen(packets, k), pattern)
    ensures Contains(Stream(packets), pattern)
  {
    hide Contains, Stream, Buffer;
    var before := Stream(packets[..k]);
    StreamPrefix(packets, k + 1);
    StreamSnoc(packets, k);
    SightInWhole(Stream(packets), before, packets[k], pattern);
  }

  /** So for patterns the tail is long enough for, scanning packet by packet
      finds exactly what scanning the whole flow would. */
  lemma ScanningPacketsIsScanningTheFlow(packets: seq<seq<Byte>>, pattern: seq<Byte>)
    requires 1 <= |pattern| <= MAX_FLOW_TAIL + 1
    ensures Contains(Stream(packets), pattern) <==>
            exists k :: 0 <= k < |packets| && Contains(Seen(packets, k), pattern)
  {
    if Contains(Stream(packets), pattern) {
      var i: nat :| At(Stream(packets), pattern, i);
      var k := SomeoneCarries(packets, i + |pattern| - 1);
      EveryOccurrenceIsSeen(packets, pattern, i, k);
    }
    if k :| 0 <= k < |packets| && Contains(Seen(packets, k), pattern) {
      EverySightIsReal(packets, pattern, k);
    }
  }

  /** The bound is exact: any longer pattern is missed by some cutting. */
  lemma LongerPatternsCanBeMissed(pattern: seq<Byte>)
    requires |pattern| > MAX_FLOW_TAIL + 1
    ensures var packets := [pattern[..|pattern| - 1], pattern[|pattern| - 1..]];
            && Contains(Stream(packets), pattern)
            && forall k :: 0 <= k < 2 ==> !Contains(Seen(packets, k), pattern)
  {
    var n := |pattern| - 1;
    var packets := [pattern[..n], pattern[n..]];
    assert packets[..0] == [] && packets[..1] == [pattern[..n]] && packets[..2] == packets;
    StreamSnoc(packets, 0);
    StreamSnoc(packets, 1);
    assert Stream(packets) == pattern;
    assert At(Stream(packets), pattern, 0);
    BufferIsSuffix(Stream(packets[..1]), packets[1]);
  }
}
