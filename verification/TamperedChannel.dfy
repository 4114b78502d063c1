// The secure channel when the bytes on the wire are not the sender's (src/security.rs).

module TamperedChannel {
  import opened Common
  import opened Framing
  import opened ChannelSpec

  /** The two ends of one direction. `sent` are the payloads whose send reported success, `sealed` those on which
      the cipher was used. Nothing ties what arrives to what was written. */
  datatype Link = Link(a: Sender, b: Receiver, sent: seq<Bytes>, sealed: seq<Bytes>, delivered: seq<Bytes>)

  datatype Step =
    | Send(payload: Bytes, out: Bytes, ok: bool, smooth: bool)
    | Receive(arrived: Bytes, left: Bytes, result: Poll, io: Reading)
    | CloseSender
    | CloseReceiver

  /** Integrity of the cipher: what opens under a number is what the peer sealed under that number. */
  predicate Genuine(s: Session, l: Link, arrived: Bytes) {
    var pending, n := l.b.buffer + arrived, l.b.counter;
    HoldsFrame(pending) && s.suite.open(n, FirstBody(pending)).Some? ==>
      n < |l.sealed| && Ciphertext(s, n, l.sealed[n]) == Some(FirstBody(pending))
  }

  /** Any bytes may arrive. A send that fails may have used the cipher if it closed the channel. */
  ghost predicate Moves(s: Session, l: Link, step: Step, m: Link) {
    match step
    case Send(payload, out, ok, smooth) =>
      && Sends(s, l.a, m.a, payload, out, ok, smooth)
      && m == l.(a := m.a, sent := if ok then l.sent + [payload] else l.sent,
                 sealed := if ok || (m.a.closed && !l.a.closed) then l.sealed + [payload] else l.sealed)
    case Receive(arrived, left, result, io) =>
      && Genuine(s, l, arrived)
      && Polls(s, l.b, arrived, m.b, left, result, io)
      && m == l.(b := m.b, delivered := if result.Received? then l.delivered + [result.payload] else l.delivered)
    case CloseSender => m == l.(a := l.a.(closed := true))
    case CloseReceiver => m == l.(b := l.b.(closed := true))
  }

  const OPENING: Link := Link(Sender(0, 0, false), Receiver(0, 0, [], false), [], [], [])

  ghost predicate IsRun(s: Session, links: seq<Link>, steps: seq<Step>) {
    && |links| == |steps| + 1 && links[0] == OPENING
    && (forall i: nat :: i < |steps| ==> MovesAt(s, links, steps, i))
  }

  ghost predicate MovesAt(s: Session, links: seq<Link>, steps: seq<Step>, i: nat)
    requires i < |steps| && |links| == |steps| + 1
  {
    Moves(s, links[i], steps[i], links[i + 1])
  }

  predicate LinkOk(l: Link) {
    && l.a.sequence == |l.sent|
    && l.sent <= l.sealed && |l.sealed| <= |l.sent| + 1 && (l.sealed != l.sent ==> l.a.closed)
    && l.delivered <= l.sealed
    && (!l.b.closed ==> l.b.sequence == l.b.counter == |l.delivered|)
  }

  /** A genuine record carries the payload that was sealed under its number. */
  lemma GenuineRecord(s: Session, n: nat, payload: Bytes, c: Bytes)
    requires s.suite.Sound() && Ciphertext(s, n, payload) == Some(c)
    ensures Opened(s, n, c) == Some(SecureRecord(1, s.direction, s.sessionId, n, payload))
  {
  }

  lemma ReceiveKeepsLink(s: Session, l: Link, step: Step, m: Link)
    requires LinkOk(l) && s.suite.Sound() && step.Receive? && Moves(s, l, step, m)
    ensures LinkOk(m)
  {
    if step.result.Received? {
      var pending, n := l.b.buffer + step.arrived, l.b.counter;
      GenuineRecord(s, n, l.sealed[n], FirstBody(pending));
      assert m.delivered == l.sealed[..n] + [l.sealed[n]] == l.sealed[..n + 1];
    }
  }

  lemma {:induction false} RunKeepsLink(s: Session, links: seq<Link>, steps: seq<Step>, i: nat)
    requires IsRun(s, links, steps) && s.suite.Sound() && i < |links|
    ensures LinkOk(links[i])
  {
    hide Polls, Genuine;
    if i == 0 {
    } else {
      RunKeepsLink(s, links, steps, i - 1);
      assert MovesAt(s, links, steps, i - 1);
      if steps[i - 1].Receive? {
        ReceiveKeepsLink(s, links[i - 1], steps[i - 1], links[i]);
      }
    }
  }

  /**
   * Whatever bytes arrive, in whatever order and cut: the delivered payloads are a prefix of those whose send
   * succeeded, or of these and the one whose send failed and thereby closed the sender. Nothing is altered,
   * reordered, repeated or invented.
   */
  lemma DeliveredDespiteTampering(s: Session, links: seq<Link>, steps: seq<Step>, i: nat)
    requires IsRun(s, links, steps) && s.suite.Sound() && i < |links|
    ensures var l := links[i];
            || l.delivered <= l.sent
            || (l.a.closed && |l.sealed| == |l.sent| + 1 && l.sealed[..|l.sent|] == l.sent && l.delivered == l.sealed)
  {
    RunKeepsLink(s, links, steps, i);
    var l := links[i];
    if |l.delivered| <= |l.sent| {
      assert l.delivered == l.sealed[..|l.delivered|] == l.sent[..|l.delivered|];
    } else {
      assert l.delivered == l.sealed[..|l.delivered|] == l.sealed;
    }
  }
}
