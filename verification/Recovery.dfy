// Recovery end to end: the cached answer to a resubmission passes the checks of the client that sent it.

module Recovery {
  import opened Common
  import opened Timing
  import opened Protocol
  import opened ActorSpec
  import opened ActorRuns
  import opened Agreement
  import W = WakeSystem

  /** The order that a submission carries. */
  predicate Carries(o: W.Operation, m: W.Submission, command: WakeCommand) {
    && command.operationId == o.key.operationId && command.hostIds == o.targets
    && command.attempt == m.attempt && command.retryTicket == m.ticket
  }

  /** The client submitted the order, and its connection lived through traffic of other operations since. */
  ghost predicate Waits(cfg: Config, a: Actor, command: WakeCommand, submittedAt: int, states: seq<Actor>,
                        between: seq<Input>)
  {
    && a.open && !Refused(a, command)
    && Unrelated(between, command.operationId, submittedAt + PENDING_OPERATION_TTL)
    && IsRun(cfg, states, between) && states[|between|].open
    && states[0] == Submit(a, command, submittedAt, true, true)
  }

  /**
   * A client that reconnects and submits a completed attempt again gets its receipt back and takes it: the answer
   * that the server builds at wall time `wall` and stamps at `sent` is shown, with the accepted hosts of the
   * completion, exactly when the clocks agree. How long ago the attempt completed does not matter.
   */
  lemma RecoveredReceiptIsShownIffClocksAgree(
    o: W.Operation, s: W.System, m: W.Submission, draw: nat, wall: nat,
    cfg: Config, a: Actor, command: WakeCommand, submittedAt: int, states: seq<Actor>, between: seq<Input>,
    sent: nat, nowMs: nat, io: Surroundings)
    requires W.Reachable(o, s) && W.Enabled(o, s, W.Serve(m, draw, wall))
    requires s.granted == m.attempt && s.worker.None?
    requires s.now <= m.sentAt + CONNECT_TIMEOUT + RECEIPT_TIMEOUT
    requires Carries(o, m, command) && cfg.headers == o.headers
    requires nowMs + WAKE_WAIT_TIMEOUT + cfg.skewMs <= U64_MAX && wall + MONITOR_TIMEOUT <= U64_MAX
    ensures var answer := W.Answer(o, s, m, draw, wall);
            && answer.WakeCached?
            && (Waits(cfg, a, command, submittedAt, states, between) && io.room > 0 ==>
                  var b := states[|between|];
                  var c := Handle(cfg, b, answer.receipt.(issuedAtMs := sent), nowMs, io);
                  if ClocksAgree(cfg, wall, sent, nowMs) then
                    c.open && c.log == b.log + [Receipt(o.key.operationId, m.attempt, s.ticket, AcceptedOf(s.results))]
                  else !c.open && c.log == b.log + [Notice])
  {
    hide W.Reachable, W.Enabled, W.Answer, Handle, Submit, IsRun, Unrelated, Refused, ClocksAgree;
    W.ResubmissionIsCached(o, s, m, draw, wall);
    AttemptTwoHasItsTicket(o, s, m, draw, wall);
    if Waits(cfg, a, command, submittedAt, states, between) && io.room > 0 {
      ReceiptIsShownIffClocksAgree(cfg, a, command, submittedAt, states, between, s.ticket, wall, sent, s.results,
                                   nowMs, io);
    }
    var receipt := W.Answer(o, s, m, draw, wall).receipt;
    assert receipt.(issuedAtMs := sent) ==
           Envelope(cfg, command.operationId, command.attempt, s.ticket, wall, sent, s.results);
  }

  lemma AttemptTwoHasItsTicket(o: W.Operation, s: W.System, m: W.Submission, draw: nat, wall: nat)
    requires W.Reachable(o, s) && W.Enabled(o, s, W.Serve(m, draw, wall))
    ensures m.attempt == 2 ==> m.ticket == Some(s.ticket)
  {
    hide W.Reachable;
    W.ReachableOk(o, s);
    assert W.SubmissionOk(o, s, m);
  }
}
