// Runs of one direction of a secure channel, and of a receiver under any chunking of its bytes.

module ChannelRuns {
  import opened Common
  import opened Framing
  import opened ChannelSpec

  // ----- Delivery -----

  /** A sending and a receiving end joined by a byte stream. `sent` are the payloads whose send reported success,
      `wire` the bytes not yet read, `cut` the part of a frame that a failed send left behind. */
  datatype Link = Link(a: Sender, b: Receiver, wire: Bytes, cut: Bytes, sent: seq<Bytes>, delivered: seq<Bytes>)

  datatype Step =
    | Send(payload: Bytes, out: Bytes, ok: bool, smooth: bool)
    | Receive(result: Poll, io: Reading)
    | CloseSender
    | CloseReceiver

  ghost predicate Moves(s: Session, l: Link, step: Step, m: Link) {
    match step
    case Send(payload, out, ok, smooth) =>
      && Sends(s, l.a, m.a, payload, out, ok, smooth)
      && m == l.(a := m.a, wire := l.wire + out, cut := if ok then l.cut else l.cut + out,
                 sent := if ok then l.sent + [payload] else l.sent)
    case Receive(result, io) =>
      && Polls(s, l.b, l.wire, m.b, m.wire, result, io)
      && m == l.(b := m.b, wire := m.wire,
                 delivered := if result.Received? then l.delivered + [result.payload] else l.delivered)
    case CloseSender => m == l.(a := l.a.(closed := true))
    case CloseReceiver => m == l.(b := l.b.(closed := true))
  }

  const OPENING: Link := Link(Sender(0, 0, false), Receiver(0, 0, [], false), [], [], [], [])

  ghost predicate IsRun(s: Session, links: seq<Link>, steps: seq<Step>) {
    && |links| == |steps| + 1 && links[0] == OPENING
    && (forall i: nat :: i < |steps| ==> MovesAt(s, links, steps, i))
  }

  ghost predicate MovesAt(s: Session, links: seq<Link>, steps: seq<Step>, i: nat)
    requires i < |steps| && |links| == |steps| + 1
  {
    Moves(s, links[i], steps[i], links[i + 1])
  }

  /** The bytes of the payloads sent from number `n` on. */
  function Frames(s: Session, n: nat, payloads: seq<Bytes>): Bytes
    requires Encodable(s, n, payloads)
    decreases payloads
  {
    if payloads == [] then [] else Frame(Ciphertext(s, n, payloads[0]).value) + Frames(s, n + 1, payloads[1..])
  }

  predicate Encodable(s: Session, n: nat, payloads: seq<Bytes>) {
    forall i: nat :: i < |payloads| ==> SendablePayload(payloads[i]) && Ciphertext(s, n + i, payloads[i]).Some?
  }

  lemma EncodableTail(s: Session, n: nat, payloads: seq<Bytes>)
    requires Encodable(s, n, payloads) && payloads != []
    ensures Encodable(s, n + 1, payloads[1..])
  {
    forall i: nat | i < |payloads| - 1
      ensures SendablePayload(payloads[1..][i]) && Ciphertext(s, n + 1 + i, payloads[1..][i]).Some?
    {
      assert payloads[1..][i] == payloads[1 + i] && n + 1 + i == n + (1 + i);
    }
  }

  lemma {:induction false} FramesAppend(s: Session, n: nat, payloads: seq<Bytes>, p: Bytes)
    requires Encodable(s, n, payloads) && SendablePayload(p) && Ciphertext(s, n + |payloads|, p).Some?
    ensures Encodable(s, n, payloads + [p])
    ensures Frames(s, n, payloads + [p]) == Frames(s, n, payloads) + Frame(Ciphertext(s, n + |payloads|, p).value)
    decreases payloads
  {
    assert Encodable(s, n, payloads + [p]);
    if payloads == [] {
      assert (payloads + [p])[1..] == [];
    } else {
      EncodableTail(s, n, payloads);
      FramesAppend(s, n + 1, payloads[1..], p);
      assert (payloads + [p])[1..] == payloads[1..] + [p];
    }
  }

  ghost predicate CutShort(bytes: Bytes) {
    bytes == [] || exists c: Bytes :: Carried(c) && |bytes| < |Frame(c)| && bytes == Frame(c)[..|bytes|]
  }

  ghost predicate LinkOk(s: Session, l: Link) {
    && l.a.sequence == |l.sent|
    && CutShort(l.cut) && (l.cut != [] ==> l.a.closed)
    && l.delivered <= l.sent
    && (!l.b.closed ==>
          var rest := l.sent[|l.delivered|..];
          && l.b.sequence == l.b.counter == |l.delivered|
          && Encodable(s, |l.delivered|, rest)
          && l.b.buffer + l.wire == Frames(s, |l.delivered|, rest) + l.cut)
  }

  lemma CutHoldsNoFrame(bytes: Bytes)
    requires CutShort(bytes)
    ensures !HoldsFrame(bytes) && !BadLength(bytes)
  {
    if bytes != [] {
      var c: Bytes :| Carried(c) && |bytes| < |Frame(c)| && bytes == Frame(c)[..|bytes|];
      CutFrameWaits(c, |bytes|);
    }
  }

  /** What waits at an open receiver starts with the frame of the next payload, if there is one. */
  lemma NextFrame(s: Session, l: Link)
    requires LinkOk(s, l) && !l.b.closed && s.suite.Sound()
    ensures var pending := l.b.buffer + l.wire;
            !BadLength(pending) && (HoldsFrame(pending) <==> |l.delivered| < |l.sent|)
    ensures var pending, n := l.b.buffer + l.wire, |l.delivered|;
            n < |l.sent| ==>
              && Opened(s, n, FirstBody(pending)) == Some(SecureRecord(1, s.direction, s.sessionId, n, l.sent[n]))
              && SendablePayload(l.sent[n])
              && Encodable(s, n + 1, l.sent[n + 1..])
              && AfterFirst(pending) == Frames(s, n + 1, l.sent[n + 1..]) + l.cut
  {
    var n := |l.delivered|;
    var rest := l.sent[n..];
    if rest == [] {
      assert Frames(s, n, rest) + l.cut == l.cut;
      CutHoldsNoFrame(l.cut);
    } else {
      EncodableTail(s, n, rest);
      assert rest[0] == l.sent[n] && rest[1..] == l.sent[n + 1..] && Ciphertext(s, n + 0, rest[0]).Some?;
      var c := Ciphertext(s, n, rest[0]).value;
      var after := Frames(s, n + 1, rest[1..]) + l.cut;
      assert Frames(s, n, rest) + l.cut == Frame(c) + after;
      FrameParses(c, after);
    }
  }

  lemma SuccessKeepsLink(s: Session, l: Link, step: Step, m: Link)
    requires LinkOk(s, l) && step.Send? && step.ok && Moves(s, l, step, m)
    ensures LinkOk(s, m)
  {
    hide Frames, Ciphertext, Frame, CutShort;
    assert l.cut == [];
    var n := |l.delivered|;
    assert m.sent[..|l.sent|] == l.sent;
    if !m.b.closed {
      assert m.sent[n..] == l.sent[n..] + [step.payload];
      FramesAppend(s, n, l.sent[n..], step.payload);
      assert m.b.buffer + m.wire == (l.b.buffer + l.wire) + step.out;
    }
  }

  lemma FailureLeavesACut(s: Session, a: Sender, b: Sender, payload: Bytes, out: Bytes, smooth: bool)
    requires Sends(s, a, b, payload, out, false, smooth)
    ensures CutShort(out) && b.sequence == a.sequence
    ensures (a.closed ==> b.closed && out == []) && (out != [] ==> b.closed)
  {
    hide Frame;
    if out != [] {
      var c := Ciphertext(s, a.sequence, payload).value;
      assert Carried(c) && |out| < |Frame(c)| && out == Frame(c)[..|out|];
    }
  }

  lemma FailureKeepsLink(s: Session, l: Link, step: Step, m: Link)
    requires LinkOk(s, l) && step.Send? && !step.ok && Moves(s, l, step, m)
    ensures LinkOk(s, m)
  {
    hide Frames, CutShort, Sends;
    FailureLeavesACut(s, l.a, m.a, step.payload, step.out, step.smooth);
    assert step.out == [] || l.cut == [];
    assert l.cut + step.out == if step.out == [] then l.cut else step.out;
    assert m.b.buffer + m.wire == (l.b.buffer + l.wire) + step.out;
  }

  lemma SendKeepsLink(s: Session, l: Link, step: Step, m: Link)
    requires LinkOk(s, l) && step.Send? && Moves(s, l, step, m)
    ensures LinkOk(s, m)
  {
    hide LinkOk, Moves;
    if step.ok {
      SuccessKeepsLink(s, l, step, m);
    } else {
      FailureKeepsLink(s, l, step, m);
    }
  }

  lemma ReceiveKeepsLink(s: Session, l: Link, step: Step, m: Link)
    requires LinkOk(s, l) && s.suite.Sound() && step.Receive? && Moves(s, l, step, m)
    ensures LinkOk(s, m)
  {
    if !l.b.closed && step.result.Received? {
      NextFrame(s, l);
      assert l.sent[..|l.delivered|] == l.delivered;
      assert m.delivered == l.sent[..|m.delivered|];
    }
  }

  lemma {:induction false} RunKeepsLink(s: Session, links: seq<Link>, steps: seq<Step>, i: nat)
    requires IsRun(s, links, steps) && s.suite.Sound() && i < |links|
    ensures LinkOk(s, links[i])
  {
    hide Sends, Polls;
    if i == 0 {
    } else {
      RunKeepsLink(s, links, steps, i - 1);
      assert MovesAt(s, links, steps, i - 1);
      match steps[i - 1]
      case Send(_, _, _, _) => SendKeepsLink(s, links[i - 1], steps[i - 1], links[i]);
      case Receive(_, _) => ReceiveKeepsLink(s, links[i - 1], steps[i - 1], links[i]);
      case CloseSender =>
      case CloseReceiver =>
    }
  }

  /** At any time the delivered payloads are a prefix of those whose send succeeded: in order, once each, and
      nothing of a send that failed. */
  lemma DeliveredIsPrefixOfSent(s: Session, links: seq<Link>, steps: seq<Step>, i: nat)
    requires IsRun(s, links, steps) && s.suite.Sound() && i < |links|
    ensures links[i].delivered <= links[i].sent
  {
    RunKeepsLink(s, links, steps, i);
  }

  /** The receiver never fails on its own: while fewer than 2^64 - 1 payloads were delivered, a poll fails only
      on an end that already is closed or when the stream fails. */
  lemma PollFailsOnlyWithTheStream(s: Session, links: seq<Link>, steps: seq<Step>, i: nat)
    requires IsRun(s, links, steps) && s.suite.Sound() && i < |steps|
    requires steps[i].Receive? && steps[i].result.Failed? && !links[i].b.closed
    requires |links[i].delivered| + 1 < U64_LIMIT
    ensures steps[i].io.failed
  {
    RunKeepsLink(s, links, steps, i);
    assert MovesAt(s, links, steps, i);
    NextFrame(s, links[i]);
  }

  /** Below the last sequence number an open sender sends every legal payload that the libraries can encode, if the
      stream takes it in time. */
  lemma LegalPayloadIsSent(s: Session, links: seq<Link>, steps: seq<Step>, i: nat)
    requires IsRun(s, links, steps) && s.suite.Sound() && i < |steps|
    requires steps[i].Send? && steps[i].smooth && !links[i].a.closed && |links[i].sent| + 1 < U64_LIMIT
    requires 0 < |steps[i].payload| <= 32 * 1024 && Ciphertext(s, |links[i].sent|, steps[i].payload).Some?
    ensures links[i + 1].sent == links[i].sent + [steps[i].payload] && !links[i + 1].a.closed
  {
    RunKeepsLink(s, links, steps, i);
    assert MovesAt(s, links, steps, i);
  }

  /** A payload that was sent and whose bytes have arrived is delivered by the first poll that is not hindered. */
  lemma SentPayloadIsDelivered(s: Session, links: seq<Link>, steps: seq<Step>, i: nat)
    requires IsRun(s, links, steps) && s.suite.Sound() && i < |steps|
    requires steps[i].Receive? && !steps[i].io.hindered && !links[i].b.closed
    requires |links[i].delivered| < |links[i].sent| && |links[i].delivered| + 1 < U64_LIMIT
    ensures links[i + 1].delivered == links[i].delivered + [links[i].sent[|links[i].delivered|]]
  {
    RunKeepsLink(s, links, steps, i);
    assert MovesAt(s, links, steps, i);
    NextFrame(s, links[i]);
    var l, m := links[i], links[i + 1];
    assert m.wire == [] ==> m.b.buffer + m.wire == m.b.buffer;
  }

  /** When a poll finds nothing and every byte was read, every payload whose send succeeded was delivered. */
  lemma QuietMeansAllDelivered(s: Session, links: seq<Link>, steps: seq<Step>, i: nat)
    requires IsRun(s, links, steps) && s.suite.Sound() && i < |steps|
    requires steps[i].Receive? && steps[i].result.Nothing? && links[i + 1].wire == []
    ensures links[i + 1].delivered == links[i + 1].sent
  {
    RunKeepsLink(s, links, steps, i + 1);
    assert MovesAt(s, links, steps, i);
    var m := links[i + 1];
    NextFrame(s, m);
    assert m.b.buffer + m.wire == m.b.buffer;
    assert m.delivered == m.sent[..|m.delivered|];
  }

  /** Closed is absorbing for both ends: nothing is written, read, sent or delivered any more. */
  lemma {:induction false} ClosedIsAbsorbing(s: Session, links: seq<Link>, steps: seq<Step>, i: nat, j: nat)
    requires IsRun(s, links, steps) && i <= j < |links|
    ensures links[i].a.closed ==> links[j].a.closed && links[j].sent == links[i].sent
    ensures links[i].b.closed ==> links[j].b.closed && links[j].delivered == links[i].delivered
  {
    if i == j {
    } else {
      ClosedIsAbsorbing(s, links, steps, i, j - 1);
      assert MovesAt(s, links, steps, j - 1);
    }
  }

  // ----- Chunking -----

  /** The payloads a byte string stands for, from record number `n` on, up to the first byte that does not fit. */
  function Decoded(s: Session, n: nat, bytes: Bytes): seq<Bytes>
    decreases |bytes|
  {
    if !HoldsFrame(bytes) || n + 1 >= U64_LIMIT then []
    else
      var record := Opened(s, n, FirstBody(bytes));
      if record.None? || !Accepts(s, record.value, n) then []
      else [record.value.payload] + Decoded(s, n + 1, AfterFirst(bytes))
  }

  datatype PollStep = PollStep(before: Receiver, unread: Bytes, after: Receiver, left: Bytes, result: Poll,
                               io: Reading)

  ghost predicate IsPolling(s: Session, bytes: Bytes, polls: seq<PollStep>) {
    forall i: nat :: i < |polls| ==> PollAt(s, bytes, polls, i)
  }

  ghost predicate PollAt(s: Session, bytes: Bytes, polls: seq<PollStep>, i: nat)
    requires i < |polls|
  {
    var p := polls[i];
    && Polls(s, p.before, p.unread, p.after, p.left, p.result, p.io)
    && (if i == 0 then p.before == Receiver(0, 0, [], false) && p.unread == bytes
        else p.before == polls[i - 1].after && p.unread == polls[i - 1].left)
  }

  function Payloads(polls: seq<PollStep>): seq<Bytes> {
    if polls == [] then []
    else
      var last := polls[|polls| - 1];
      Payloads(polls[..|polls| - 1]) + if last.result.Received? then [last.result.payload] else []
  }

  /** However the bytes are cut into reads and pauses, the polls return a prefix of what the bytes stand for, and
      all of it once nothing is left to read. */
  lemma {:induction false} PollsFollowTheBytes(s: Session, bytes: Bytes, polls: seq<PollStep>)
    requires IsPolling(s, bytes, polls) && polls != []
    ensures Payloads(polls) <= Decoded(s, 0, bytes)
    ensures var last := polls[|polls| - 1].after;
            !last.closed ==>
              && last.sequence == last.counter == |Payloads(polls)|
              && Payloads(polls) + Decoded(s, last.sequence, last.buffer + polls[|polls| - 1].left) ==
                 Decoded(s, 0, bytes)
    ensures polls[|polls| - 1].result.Nothing? && polls[|polls| - 1].left == [] ==>
              Payloads(polls) == Decoded(s, 0, bytes)
    decreases polls
  {
    hide Polls, Decoded;
    var k := |polls| - 1;
    var p := polls[k];
    assert PollAt(s, bytes, polls, k);
    var before := polls[..k];
    assert p.before.buffer + p.unread == bytes || k > 0;
    if k == 0 {
    } else {
      forall i: nat | i < k ensures PollAt(s, bytes, before, i) { assert PollAt(s, bytes, polls, i); }
      PollsFollowTheBytes(s, bytes, before);
    }
    PollDecodes(s, p);
  }

  lemma PollDecodes(s: Session, p: PollStep)
    requires Polls(s, p.before, p.unread, p.after, p.left, p.result, p.io)
    requires !p.before.closed ==> p.before.sequence == p.before.counter
    ensures p.result.Failed? <==> p.after.closed
    ensures !p.after.closed ==>
              && !p.before.closed && p.after.sequence == p.after.counter
              && p.after.sequence == p.before.sequence + if p.result.Received? then 1 else 0
    ensures p.result.Received? ==> Decoded(s, p.before.sequence, p.before.buffer + p.unread)
                                   == [p.result.payload] + Decoded(s, p.after.sequence, p.after.buffer + p.left)
    ensures p.result.Nothing? ==> Decoded(s, p.before.sequence, p.before.buffer + p.unread)
                                  == Decoded(s, p.after.sequence, p.after.buffer + p.left)
    ensures p.result.Nothing? && p.left == [] ==> Decoded(s, p.after.sequence, p.after.buffer + p.left) == []
  {
    if p.result.Nothing? && p.left == [] {
      assert p.after.buffer + p.left == p.after.buffer;
    }
  }

  /** Two receivers of the same bytes agree, whatever their chunking: one has what the other has, or less. */
  lemma ChunkingIndependent(s: Session, bytes: Bytes, some: seq<PollStep>, others: seq<PollStep>)
    requires IsPolling(s, bytes, some) && IsPolling(s, bytes, others)
    requires |Payloads(some)| <= |Payloads(others)|
    ensures Payloads(some) <= Payloads(others)
  {
    if some != [] && others != [] {
      PollsFollowTheBytes(s, bytes, some);
      PollsFollowTheBytes(s, bytes, others);
    }
  }
}
