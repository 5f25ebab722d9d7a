/** Reading the name out of a DNS query. */
module DnsQuestion {
  import opened Options
  import opened Telemetry
  import opened Utf8

  /** Labels as section 4.1.2 of RFC 1035 writes them, without the final zero. */
  function Encode(labels: seq<seq<Byte>>): seq<Byte>
    requires forall i :: 0 <= i < |labels| ==> |labels[i]| < 256
  {
    if labels == [] then [] else Encode(labels[..|labels| - 1]) + [|labels[|labels| - 1]|] + labels[|labels| - 1]
  }

  function Join(labels: seq<seq<Byte>>): seq<Byte> {
    if labels == [] then []
    else if |labels| == 1 then labels[0]
    else Join(labels[..|labels| - 1]) + [0x2e] + labels[|labels| - 1]
  }

  ghost predicate GoodLabels(labels: seq<seq<Byte>>) {
    |labels| <= 32 && forall i :: 0 <= i < |labels| ==> 1 <= |labels[i]| <= 63 && ValidUtf8(labels[i])
  }

  /** The labels are all of the name that starts at the front of `body`: they are
      followed by a zero byte or by the end of the packet. */
  ghost predicate Starts(body: seq<Byte>, labels: seq<seq<Byte>>) {
    && GoodLabels(labels) && labels != []
    && Encode(labels) <= body
    && (|body| == |Encode(labels)| || body[|Encode(labels)|] == 0)
  }

  function Message(payload: seq<Byte>, tcp: bool): Option<seq<Byte>> {
    if !tcp then Some(payload) else if |payload| >= 2 then Some(payload[2..]) else None
  }

  /** A big-endian two-byte number. */
  function Be16(high: int, low: int): int { high * 256 + low }

  /** A query with at least one question. */
  predicate IsQuery(message: seq<Byte>) {
    |message| >= 12 && message[2] < 0x80 && Be16(message[4], message[5]) != 0
  }

  ghost predicate Named(payload: seq<Byte>, tcp: bool, labels: seq<seq<Byte>>) {
    var m := Message(payload, tcp);
    m.Some? && IsQuery(m.value) && Starts(m.value[12..], labels)
  }

  /** The name a payload asks for, if it is a query that names one. */
  ghost function Question(payload: seq<Byte>, tcp: bool): Option<seq<Byte>> {
    if exists labels :: Named(payload, tcp, labels)
    then var labels :| Named(payload, tcp, labels); Some(Join(labels))
    else None
  }

  // ---- decoding is unique ----

  lemma {:induction false} EncodePrefix(labels: seq<seq<Byte>>, k: nat)
    requires k <= |labels| && forall i :: 0 <= i < |labels| ==> |labels[i]| < 256
    ensures Encode(labels[..k]) <= Encode(labels)
  {
    if k < |labels| {
      EncodePrefix(labels[..|labels| - 1], k);
      assert labels[..|labels| - 1][..k] == labels[..k];
    } else {
      assert labels[..k] == labels;
    }
  }

  lemma EncodeSnoc(labels: seq<seq<Byte>>, last: seq<Byte>)
    requires |last| < 256 && forall i :: 0 <= i < |labels| ==> |labels[i]| < 256
    ensures Encode(labels + [last]) == Encode(labels) + [|last|] + last
  {
    assert (labels + [last])[..|labels|] == labels;
  }

  lemma PrefixRead(body: seq<Byte>, head: seq<Byte>, length: Byte, last: seq<Byte>)
    requires head + [length] + last <= body && |last| == length
    ensures |head| < |body| && body[|head|] == length && |head| + 1 + length <= |body|
    ensures last == body[|head| + 1..|head| + 1 + length]
  {
    var all := head + [length] + last;
    assert body[|head|] == all[|head|];
    assert all == body[..|all|];
    assert all[|head| + 1..] == last;
  }

  /** What any name at the front of `body` must look like after a known prefix. */
  lemma NextLabel(body: seq<Byte>, known: seq<seq<Byte>>, all: seq<seq<Byte>>)
    requires Starts(body, all) && known <= all && GoodLabels(known)
    ensures var at := |Encode(known)|;
            && at <= |body|
            && (known == all <==> at == |body| || body[at] == 0)
            && (known != all ==>
                  && at + 1 + body[at] <= |body|
                  && all[|known|] == body[at + 1..at + 1 + body[at]])
  {
    hide ValidUtf8, Encode;
    var k := |known|;
    assert all[..k] == known;
    if k < |all| {
      EncodePrefix(all, k + 1);
      assert all[..k + 1] == known + [all[k]];
      EncodeSnoc(known, all[k]);
      PrefixRead(body, Encode(known), |all[k]|, all[k]);
    } else {
      assert known == all;
    }
  }

  lemma {:induction false} NamesArePrefixes(body: seq<Byte>, a: seq<seq<Byte>>, b: seq<seq<Byte>>, k: nat)
    requires Starts(body, a) && Starts(body, b) && k <= |a|
    ensures a[..k] <= b
  {
    if k > 0 {
      NamesArePrefixes(body, a, b, k - 1);
      var known := a[..k - 1];
      assert known <= a;
      NextLabel(body, known, a);
      NextLabel(body, known, b);
      assert a[..k] == known + [a[k - 1]];
    }
  }

  lemma NameIsUnique(body: seq<Byte>, a: seq<seq<Byte>>, b: seq<seq<Byte>>)
    requires Starts(body, a) && Starts(body, b)
    ensures a == b
  {
    NamesArePrefixes(body, a, b, |a|);
    assert a[..|a|] == a;
    NextLabel(body, a, b);
    NextLabel(body, a, a);
  }

  lemma QuestionIs(payload: seq<Byte>, tcp: bool, labels: seq<seq<Byte>>)
    requires Named(payload, tcp, labels)
    ensures Question(payload, tcp) == Some(Join(labels))
  {
    forall other | Named(payload, tcp, other) ensures other == labels {
      NameIsUnique(Message(payload, tcp).value[12..], labels, other);
    }
  }

  lemma NoQuestion(payload: seq<Byte>, tcp: bool)
    requires forall labels :: !Named(payload, tcp, labels)
    ensures Question(payload, tcp) == None
  {}

  lemma WellFormedQueryNames(message: seq<Byte>, header: seq<Byte>, labels: seq<seq<Byte>>, rest: seq<Byte>)
    requires |header| == 12 && IsQuery(header) && GoodLabels(labels) && labels != []
    requires message == header + Encode(labels) + [0] + rest
    ensures IsQuery(message) && Starts(message[12..], labels)
  {
    hide ValidUtf8, Encode;
    assert message[..12] == header;
    assert message[2] == header[2] && message[4] == header[4] && message[5] == header[5];
    assert message[12..] == Encode(labels) + [0] + rest;
  }

  lemma ReadsAsQuery(header: seq<Byte>)
    requires |header| == 12
    ensures IsQuery(header) <==> header[2] < 128 && (header[4] > 0 || header[5] > 0)
  {
  }

  /** Encoding and parsing round trip: a query header, 1 to 32 labels of 1 to 63
      bytes of UTF-8, a zero byte and anything after it, over UDP or behind the
      two-byte TCP length, asks for exactly the dot-joined name. */
  lemma RoundTrip(header: seq<Byte>, labels: seq<seq<Byte>>, rest: seq<Byte>, length: seq<Byte>)
    requires |header| == 12 && header[2] < 128 && (header[4] > 0 || header[5] > 0) && |length| == 2
    requires GoodLabels(labels) && labels != []
    ensures Question(header + Encode(labels) + [0] + rest, false) == Some(Join(labels))
    ensures Question(length + (header + Encode(labels) + [0] + rest), true) == Some(Join(labels))
  {
    ReadsAsQuery(header);
    hide ValidUtf8, Encode, IsQuery, Starts, Question, Join;
    var message := header + Encode(labels) + [0] + rest;
    WellFormedQueryNames(message, header, labels, rest);
    assert (length + message)[2..] == message;
    QuestionIs(message, false, labels);
    QuestionIs(length + message, true, labels);
  }

  // ---- the parser ----

  /** While walking the labels: everything read so far is on every possible name. */
  ghost predicate Walked(body: seq<Byte>, labels: seq<seq<Byte>>, offset: nat) {
    && GoodLabels(labels) && offset <= |body| && Encode(labels) == body[..offset]
    && forall all :: Starts(body, all) ==> labels <= all
  }

  lemma WalkStart(body: seq<Byte>)
    ensures Walked(body, [], 0)
  {}

  /** The next label can be read and taken. */
  predicate Readable(body: seq<Byte>, labels: seq<seq<Byte>>, offset: nat)
    requires offset < |body|
  {
    && body[offset] <= 63 && offset + 1 + body[offset] <= |body|
    && ValidUtf8(body[offset + 1..offset + 1 + body[offset]]) && |labels| < 32
  }

  lemma WalkStep(body: seq<Byte>, labels: seq<seq<Byte>>, offset: nat)
    requires Walked(body, labels, offset) && offset < |body| && body[offset] != 0
    ensures if Readable(body, labels, offset)
            then Walked(body, labels + [body[offset + 1..offset + 1 + body[offset]]], offset + 1 + body[offset])
            else forall all :: !Starts(body, all)
  {
    hide ValidUtf8, Encode;
    forall all | Starts(body, all)
      ensures Readable(body, labels, offset)
      ensures labels + [body[offset + 1..offset + 1 + body[offset]]] <= all
    {
      NextLabel(body, labels, all);
    }
    if Readable(body, labels, offset) {
      var next := body[offset + 1..offset + 1 + body[offset]];
      EncodeSnoc(labels, next);
      assert body[..offset + 1 + body[offset]] == body[..offset] + [body[offset]] + next;
    }
  }

  lemma WalkEnd(body: seq<Byte>, labels: seq<seq<Byte>>, offset: nat)
    requires Walked(body, labels, offset) && (offset == |body| || body[offset] == 0)
    ensures labels != [] ==> Starts(body, labels)
    ensures labels == [] ==> forall all :: !Starts(body, all)
  {
    hide ValidUtf8, Encode;
    forall all | Starts(body, all) && labels == [] ensures false {
      NextLabel(body, labels, all);
    }
  }

  lemma SliceOfRest(s: seq<Byte>, skipped: nat, from: nat, to: nat)
    requires skipped <= from <= to <= |s|
    ensures s[from..to] == s[skipped..][from - skipped..to - skipped]
  {}

  /** Never reads outside the payload, ends for every input, and returns the name
      exactly when there is one. */
  method ParseDnsQuestion(payload: seq<Byte>, tcp: bool) returns (r: Option<seq<Byte>>)
    ensures r == Question(payload, tcp)
  {
    hide ValidUtf8, Encode, Starts, Walked, Question, Join;
    if tcp && |payload| < 2 {
      NoQuestion(payload, tcp);
      return None;
    }
    var message := if tcp then payload[2..] else payload;
    if |message| < 12 || message[2] >= 0x80 || Be16(message[4], message[5]) == 0 {
      NoQuestion(payload, tcp);
      return None;
    }
    ghost var body := message[12..];
    var offset := 12;
    var labels: seq<seq<Byte>> := [];
    WalkStart(body);
    while offset < |message|
      invariant 12 <= offset <= |message|
      invariant Walked(body, labels, offset - 12)
    {
      var length := message[offset];
      if length == 0 {
        break;
      }
      WalkStep(body, labels, offset - 12);
      ghost var readable := Readable(body, labels, offset - 12);
      offset := offset + 1;
      if length > 63 || offset + length > |message| {
        NoQuestion(payload, tcp);
        return None;
      }
      var text := message[offset..offset + length];
      SliceOfRest(message, 12, offset, offset + length);
      if !ValidUtf8(text) {
        NoQuestion(payload, tcp);
        return None;
      }
      labels := labels + [text];
      offset := offset + length;
      if |labels| > 32 {
        NoQuestion(payload, tcp);
        return None;
      }
      assert readable;
    }
    WalkEnd(body, labels, offset - 12);
    if labels == [] {
      NoQuestion(payload, tcp);
      return None;
    }
    QuestionIs(payload, tcp, labels);
    r := Some(Join(labels));
  }

  /** A name is read from queries only: 12 bytes of header at least, without the response
      bit and with a question count that is not zero, behind two more bytes over TCP. */
  lemma OnlyQueriesHaveNames(payload: seq<Byte>, tcp: bool)
    requires Question(payload, tcp).Some?
    ensures var at := if tcp then 2 else 0;
            && |payload| >= at + 12 && payload[at + 2] < 128
            && (payload[at + 4] > 0 || payload[at + 5] > 0)
  {
    hide Starts, Join;
    var labels :| Named(payload, tcp, labels);
  }

  // ---- the dotted name ----

  const DOT: Byte := 46

  /** The parts of a dotted name. */
  ghost function Split(name: seq<Byte>): (parts: seq<seq<Byte>>)
    ensures parts != []
  {
    if name == [] then [[]]
    else
      var parts, last := Split(name[..|name| - 1]), name[|name| - 1];
      if last == DOT then parts + [[]]
      else parts[..|parts| - 1] + [parts[|parts| - 1] + [last]]
  }

  lemma {:induction false} SplitAfterDot(front: seq<Byte>, part: seq<Byte>)
    requires DOT !in part
    ensures Split(front + [DOT] + part) == Split(front) + [part]
  {
    var name := front + [DOT] + part;
    if part == [] {
      assert name[..|name| - 1] == front;
    } else {
      var init := part[..|part| - 1];
      assert name[..|name| - 1] == front + [DOT] + init;
      SplitAfterDot(front, init);
      assert init + [part[|part| - 1]] == part;
    }
  }

  lemma {:induction false} SplitDotless(part: seq<Byte>)
    requires DOT !in part
    ensures Split(part) == [part]
  {
    if part != [] {
      SplitDotless(part[..|part| - 1]);
      assert part[..|part| - 1] + [part[|part| - 1]] == part;
    }
  }

  /** The reported name gives back its labels, if none of them contains a dot. */
  lemma {:induction false} SplitJoin(labels: seq<seq<Byte>>)
    requires labels != [] && forall i :: 0 <= i < |labels| ==> DOT !in labels[i]
    ensures Split(Join(labels)) == labels
  {
    if |labels| == 1 {
      SplitDotless(labels[0]);
    } else {
      hide Split;
      var init, last := labels[..|labels| - 1], labels[|labels| - 1];
      assert labels == init + [last];
      assert forall i :: 0 <= i < |init| ==> init[i] == labels[i];
      SplitJoin(init);
      SplitAfterDot(Join(init), last);
    }
  }
}
