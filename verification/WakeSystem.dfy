// One wake operation end to end: the terminal client, messages in flight and the server's ledger.

module WakeSystem {
  import opened Common
  import opened Timing
  import opened Protocol
  import opened LedgerSpec
  import opened LedgerInvariant
  import opened LedgerRuns
  import LedgerAnswers
  import S = ScreenSpec
  import P = ProgressSpec
  import WakeServer

  /** The operation that is followed. Its digest stands for the request content it is computed from. */
  datatype Operation = Operation(key: OperationKey, request: WakeRequest, targets: seq<Text>, headers: seq<Header>)

  /** What the client knew when it asked for the second attempt: when the receipt it relies on was built by the
      server, whether its lease was indexed, when it was received and when the local wait was over. */
  datatype Basis = Basis(builtAt: int, indexed: bool, receivedAt: int, readyAt: int)

  /** A submission on its way to the server. */
  datatype Submission = Submission(attempt: nat, ticket: Option<nat>, sentAt: int, basis: Option<Basis>)

  /** An execution receipt on its way to the client. `indexed` records that its ticket was in the index. */
  datatype Notice = Notice(attempt: nat, ticket: nat, builtAt: int, indexed: bool, results: seq<WakeResult>)

  /** A reservation whose worker still is dispatching; it has asked for `done` packets so far. */
  datatype Worker = Worker(attempt: nat, startedAt: int, done: nat)

  /** One packet handed to the wake sender. */
  datatype Dispatch = Dispatch(attempt: nat, host: Text)

  datatype System = System(
    now: int,
    screen: S.Screen,
    submissions: set<Submission>,
    notices: set<Notice>,
    ledger: State,
    drawn: set<nat>,             // every ticket drawn so far
    worker: Option<Worker>,
    log: multiset<Dispatch>,     // what the wake sender was asked to send for the operation
    // history
    granted: nat,                // reservations so far
    ticket: nat,                 // the ticket of the first reservation
    results: seq<WakeResult>,    // the results of the last completion
    startedAt: int,              // when the client first submitted
    secondAt: Option<int>,       // when it asked for the second attempt
    taken: Option<Notice>,       // the last receipt of attempt 1 it took, and when
    takenAt: int,
    prompt: bool)                // every dispatch so far completed within RETRY_TTL of its reservation

  datatype Step =
    | Advance(to: int)
    | Connect(alive: bool)
    | LoseConnection
    | Disconnect
    | Tick(alive: bool)
    | Leave
    | TakeNotice(notice: Notice)
    | SeeOnline(attempt: nat, host: Text)
    | Serve(submission: Submission, draw: nat, wall: nat)
    | Send
    | Finish(results: seq<WakeResult>, envelope: ServerEnvelope)
    | Foreign(op: Op)

  /** What the server answers to a submission. */
  function Answer(o: Operation, s: System, m: Submission, draw: nat, wall: nat): WakeBeginResult {
    WakeServer.Begun(s.ledger, o.key, o.request, m.attempt, m.ticket, draw, s.now, wall).1
  }

  /** The one ledger operation, under the ledger lock, that a well-formed submission comes to. */
  function LedgerStep(o: Operation, s: System, m: Submission, draw: nat, wall: nat): LedgerInvariant.Step {
    LedgerInvariant.Step(s.now, if m.attempt == 1 then Wake1(o.key, o.request, draw, wall)
                                else Wake2(o.key, o.request, if m.ticket.Some? then m.ticket.value else 0, wall))
  }

  /** How far behind an order its request may be stamped, the difference of the two wall clocks included. */
  const STAMP_DELAY: int := 60_000

  /** A stamp that the request of an order can have, and that the server accepts: not more than REQUEST_SKEW away
      from its own clock. */
  predicate Accepted(m: Submission, stamp: int, now: int) {
    stamp <= m.sentAt + STAMP_DELAY && now - REQUEST_SKEW <= stamp <= now + REQUEST_SKEW
  }

  ghost predicate Fresh(m: Submission, now: int) {
    exists stamp: int :: Accepted(m, stamp, now)
  }

  /** The environment: time goes forward, every reservation completes before its pending lease ends, messages
      arrive in any order, any number of times, or never, and a request is served only while it is fresh; tickets
      are fresh, and other clients use the ledger for their own keys. A worker goes through the targets in order, one
      packet at a time, and may complete after any of them: the cooldown refuses all of them. */
  ghost predicate Enabled(o: Operation, s: System, step: Step) {
    match step
    case Advance(to) =>
      s.now <= to && (s.worker.Some? ==> to < s.worker.value.startedAt + PENDING_LEDGER_TTL)
    case TakeNotice(notice) => notice in s.notices
    case Serve(m, draw, _) =>
      && m in s.submissions && Fresh(m, s.now)
      && draw !in s.drawn
      && WakeServer.Distinct(o.targets)  // otherwise the request is refused before it reaches the ledger
    case Send => s.worker.Some? && s.worker.value.done < |o.targets|
    case Finish(results, envelope) =>
      && s.worker.Some?
      && envelope.event.CommandExecuted?
      && envelope.requestId == envelope.event.operationId == o.key.operationId
      && envelope.headers == o.headers
      && envelope.event.attempt == s.worker.value.attempt
      && envelope.event.retryTicket == s.ticket
      && envelope.event.results == results
      && WakeServer.BuiltFor(results, o.targets)
    case Foreign(op) => op.key != o.key && Allowed(s.ledger, op) && (op.Wake1? ==> op.draw !in s.drawn)
    case _ => true
  }

  function Sent(s: System, command: Option<WakeCommand>, basis: Option<Basis>): set<Submission> {
    if command.None? then s.submissions
    else s.submissions + {Submission(command.value.attempt, command.value.retryTicket, s.now, basis)}
  }

  function Max(a: int, b: int): int { if a >= b then a else b }

  /** The server has answered a submission: a grant starts a worker, a cached receipt goes back. */
  function Served(s: System, m: Submission, ledger: State, answer: WakeBeginResult): System {
    var t := s.(ledger := ledger);
    if answer.WakeNew? then
      t.(granted := s.granted + 1, worker := Some(Worker(m.attempt, s.now, 0)),
         ticket := answer.ticket, drawn := s.drawn + {answer.ticket})
    else if answer.WakeCached? && answer.receipt.event.CommandExecuted? then
      var event := answer.receipt.event;
      t.(notices := s.notices + {Notice(event.attempt, event.retryTicket, s.now, true, event.results)})
    else t
  }

  ghost function Next(o: Operation, s: System, step: Step): System
    requires Enabled(o, s, step)
  {
    match step
    case Advance(to) => s.(now := to)
    case Connect(alive) =>
      var (screen, command) := S.Connected(s.screen, s.now, alive);
      s.(screen := screen, submissions := Sent(s, command, None))
    case LoseConnection => s.(screen := s.screen.(connected := false))
    case Disconnect => s.(screen := S.Disconnected(s.screen))
    case Tick(alive) =>
      var (screen, command) := S.Tick(s.screen, s.now, alive);
      if command.None? then s.(screen := screen)
      else
        var basis := if s.taken.None? then None
                     else Some(Basis(s.taken.value.builtAt, s.taken.value.indexed, s.takenAt,
                                     Max(s.screen.wake.value.deadline, s.takenAt)));
        s.(screen := screen, submissions := Sent(s, command, basis), secondAt := Some(s.now))
    case Leave => s.(screen := S.Dropped(s.screen))
    case TakeNotice(n) =>
      var screen := S.Receipt(s.screen, o.key.operationId, n.attempt, n.ticket, n.results, s.now);
      if n.attempt == 1 && S.TakesReceipt(s.screen, o.key.operationId, 1)
      then s.(screen := screen, taken := Some(n), takenAt := s.now) else s.(screen := screen)
    case SeeOnline(attempt, host) => s.(screen := S.Online(s.screen, o.key.operationId, attempt, host))
    case Serve(m, draw, wall) =>
      var (ledger, answer) := WakeServer.Begun(s.ledger, o.key, o.request, m.attempt, m.ticket, draw, s.now, wall);
      Served(s, m, ledger, answer)
    case Send =>
      var w := s.worker.value;
      s.(log := s.log + multiset{Dispatch(w.attempt, o.targets[w.done])}, worker := Some(w.(done := w.done + 1)))
    case Finish(results, envelope) =>
      s.(ledger := LedgerSpec.Complete(s.ledger, o.key, envelope, s.now), worker := None,
         results := results, prompt := s.prompt && s.now < s.worker.value.startedAt + RETRY_TTL,
         notices := s.notices + {Notice(s.worker.value.attempt, s.ticket, s.now,
                                        s.now < s.worker.value.startedAt + RETRY_TTL, results)})
    case Foreign(op) =>
      s.(ledger := Apply(s.ledger, LedgerInvariant.Step(s.now, op)),
         drawn := if op.Wake1? then s.drawn + {op.draw} else s.drawn)
  }

  /** The client has just submitted a new operation; the ledger is in any reachable state that does not know it. */
  ghost predicate Initial(o: Operation, s: System) {
    && Invariant(s.ledger, s.now) && o.key !in s.ledger.entries
    && Tickets(s.ledger) <= s.drawn && DistinctTickets(s.ledger)
    && s.screen.wake == Some(S.FirstWake(o.key.operationId, o.request.bootNonce, o.request.catalogVersion, o.targets,
                                         s.now))
    && s.submissions == {Submission(1, None, s.now, None)}
    && s.notices == {} && s.worker == None && s.log == multiset{}
    && s.granted == 0 && s.startedAt == s.now && s.secondAt == None && s.taken == None && s.prompt
  }

  function Tickets(l: State): set<nat> {
    set k | k in l.entries && l.entries[k].wake.Some? :: l.entries[k].wake.value.ticket
  }

  predicate DistinctTickets(l: State) {
    forall j, k ::
      (&& j in l.entries && k in l.entries && l.entries[j].wake.Some? && l.entries[k].wake.Some?
       && l.entries[j].wake.value.ticket == l.entries[k].wake.value.ticket) ==> j == k
  }

  /** `states` are the states of the system around the steps. */
  ghost predicate IsRun(o: Operation, states: seq<System>, steps: seq<Step>) {
    && |states| == |steps| + 1 && Initial(o, states[0])
    && forall i: nat :: i < |steps| ==> StepAt(o, states, steps, i)
  }

  ghost predicate StepAt(o: Operation, states: seq<System>, steps: seq<Step>, i: nat)
    requires i < |steps| && |states| == |steps| + 1
  {
    Enabled(o, states[i], steps[i]) && states[i + 1] == Next(o, states[i], steps[i])
  }

  ghost predicate Reachable(o: Operation, s: System) {
    exists states: seq<System>, steps: seq<Step> :: IsRun(o, states, steps) && states[|steps|] == s
  }

  /** The state after some steps, if all of them are enabled. */
  ghost function Run(o: Operation, s: System, steps: seq<Step>): Option<System>
    decreases steps
  {
    if steps == [] then Some(s)
    else if !Enabled(o, s, steps[0]) then None
    else Run(o, Next(o, s, steps[0]), steps[1..])
  }

  // ----- The invariant -----

  ghost predicate LedgerOk(s: System) {
    Invariant(s.ledger, s.now) && Tickets(s.ledger) <= s.drawn && DistinctTickets(s.ledger)
  }

  /** When the client began the attempt that the server last reserved. */
  function Anchor(s: System): int {
    if s.granted == 2 && s.secondAt.Some? then s.secondAt.value else s.startedAt
  }

  predicate EntryOk(o: Operation, s: System, e: Entry) {
    && SameRequest(e, o.request)
    && e.wake.value.attempt == s.granted && e.wake.value.ticket == s.ticket
    && (s.worker.Some? <==> e.pending)
    && (e.response.Some? ==> ReceiptOk(o, s, e.response.value))
  }

  /** A receipt of the last completion. */
  predicate ReceiptOk(o: Operation, s: System, e: ServerEnvelope) {
    && e.requestId == o.key.operationId && e.headers == o.headers
    && e.event.CommandExecuted? && e.event.operationId == o.key.operationId
    && e.event.attempt == s.granted && e.event.retryTicket == s.ticket && e.event.results == s.results
    && HostsOf(s.results) == Elements(o.targets)
  }

  predicate ServerOk(o: Operation, s: System) {
    && s.granted <= 2
    && (s.granted == 2 ==> s.secondAt.Some?)
    && s.startedAt <= Anchor(s) <= s.now
    && (o.key in s.ledger.entries ==> s.granted > 0 && EntryOk(o, s, s.ledger.entries[o.key]))
    && (s.worker.Some? ==>
          && s.worker.value.attempt == s.granted && s.worker.value.startedAt <= s.now
          && WakeServer.Distinct(o.targets)
          && o.key in s.ledger.entries
          && s.now < s.ledger.entries[o.key].expires == s.worker.value.startedAt + PENDING_LEDGER_TTL
          && (s.granted == 1 ==> Lease(o, s, s.worker.value.startedAt, false)))
    && (s.worker.None? && s.granted > 0 && s.now < Anchor(s) + LEDGER_TTL ==>
          o.key in s.ledger.entries && s.ledger.entries[o.key].expires >= Anchor(s) + LEDGER_TTL)
    && (s.granted == 0 ==> s.worker.None?)
  }

  predicate LogOk(o: Operation, s: System) {
    && (forall d :: d in s.log ==> s.log[d] == 1 && 1 <= d.attempt <= s.granted)
    && (s.worker.Some? ==>
          forall k :: s.worker.value.done <= k < |o.targets| ==>
            Dispatch(s.worker.value.attempt, o.targets[k]) !in s.log)
  }

  /** The retry lease opened at `since` is open for RETRY_TTL unless the ticket was redeemed. */
  predicate Lease(o: Operation, s: System, since: int, settled: bool) {
    LeaseHeld(s.ledger, o.key, o.request, s.ticket, since + RETRY_TTL, settled, s.now)
  }

  /** The retry lease, indexed or not, does not end before that of a receipt built at `since`. */
  predicate Opened(o: Operation, s: System, since: int) {
    s.granted == 1 ==>
      && s.worker.None?
      && (o.key in s.ledger.entries ==>
            var wake := s.ledger.entries[o.key].wake;
            wake.Some? && wake.value.ticketExpires >= since + RETRY_TTL)
  }

  predicate NoticeOk(o: Operation, s: System, n: Notice) {
    && n.ticket == s.ticket && 1 <= n.attempt <= s.granted && n.builtAt <= s.now
    && (s.prompt ==> n.indexed)
    && (n.attempt == 1 ==> Opened(o, s, n.builtAt))
    && (n.attempt == 1 && n.indexed && s.granted == 1 ==> Lease(o, s, n.builtAt, true))
  }

  predicate BasisOk(o: Operation, s: System, b: Basis) {
    && b.builtAt <= s.now && b.readyAt <= b.receivedAt + WAKE_WAIT_TIMEOUT
    && (s.prompt ==> b.indexed)
    && Opened(o, s, b.builtAt)
    && (b.indexed && s.granted == 1 ==> Lease(o, s, b.builtAt, true))
  }

  predicate SubmissionOk(o: Operation, s: System, m: Submission) {
    && m.sentAt <= s.now
    && (m.attempt == 1 || m.attempt == 2)
    && (m.attempt == 1 ==> m.ticket == None && s.startedAt <= m.sentAt < s.startedAt + RECOVERY_TIMEOUT)
    && (m.attempt == 2 ==>
          && s.granted > 0 && m.ticket == Some(s.ticket)
          && s.secondAt.Some? && s.secondAt.value <= m.sentAt < s.secondAt.value + RECOVERY_TIMEOUT
          && (m.basis.Some? ==> BasisOk(o, s, m.basis.value) && m.sentAt < s.startedAt + RECOVERY_TIMEOUT))
  }

  predicate ClientOk(o: Operation, s: System) {
    && (s.secondAt.Some? ==> s.startedAt <= s.secondAt.value <= s.now && s.granted > 0)
    && (s.taken.Some? ==> NoticeOk(o, s, s.taken.value) && s.taken.value.attempt == 1 && s.takenAt <= s.now)
    && (s.screen.wake.Some? ==>
          var w := s.screen.wake.value;
          && (w.attempt == 1 || w.attempt == 2)
          && (w.attempt == 1 ==> w.progress.createdAt == s.startedAt && s.secondAt.None?)
          && (w.attempt == 2 ==> s.secondAt == Some(w.progress.createdAt) && w.ticket.Some?)
          && (w.ticket.Some? ==> w.ticket.value == s.ticket && s.granted > 0)
          && (w.progress.startedAt.Some? ==> w.progress.startedAt.value <= s.now)
          && (w.receipt && w.attempt == 1 ==>
                s.taken.Some? && w.deadline <= s.takenAt + WAKE_WAIT_TIMEOUT))
  }

  ghost predicate Ok(o: Operation, s: System) {
    && LedgerOk(s) && ServerOk(o, s) && LogOk(o, s) && ClientOk(o, s)
    && (forall n :: n in s.notices ==> NoticeOk(o, s, n))
    && (forall m :: m in s.submissions ==> SubmissionOk(o, s, m))
  }

  lemma InitialOk(o: Operation, s: System)
    requires Initial(o, s)
    ensures Ok(o, s)
  {
  }

  // ----- What one ledger operation does, seen from the operation's key -----

  lemma TicketsStep(l: State, step: LedgerInvariant.Step, drawn: set<nat>)
    requires Tickets(l) <= drawn && DistinctTickets(l) && Allowed(l, step.op)
    requires step.op.Wake1? ==> step.op.draw !in drawn
    ensures DistinctTickets(Apply(l, step))
    ensures Tickets(Apply(l, step)) <=
            drawn + if step.op.Wake1? && Grants(AnswerTo(l, step)) then {step.op.draw} else {}
  {
    hide Apply, AnswerTo, Allowed;
    var after := Apply(l, step);
    forall k | k in after.entries && after.entries[k].wake.Some?
      ensures if step.op.Wake1? && step.op.key == k && Grants(AnswerTo(l, step))
              then after.entries[k].wake.value.ticket == step.op.draw
              else k in l.entries && l.entries[k].wake.Some?
                   && l.entries[k].wake.value.ticket == after.entries[k].wake.value.ticket
    {
      EntryStep(l, step, k);
    }
    forall k | k in l.entries && l.entries[k].wake.Some? ensures l.entries[k].wake.value.ticket in drawn {
      assert l.entries[k].wake.value.ticket in Tickets(l);
    }
  }

  /** A wake request that is not granted leaves a live entry alone, except for its lease. */
  lemma UngrantedStep(l: State, step: LedgerInvariant.Step)
    requires (step.op.Wake1? || step.op.Wake2?) && !Grants(AnswerTo(l, step))
    ensures step.op.key in Apply(l, step).entries <==>
              step.op.key in l.entries && l.entries[step.op.key].expires > step.now
    ensures step.op.key in Apply(l, step).entries ==>
              EqualButLease(l.entries[step.op.key], Apply(l, step).entries[step.op.key])
  {
  }

  lemma CachedReceipt(l: State, step: LedgerInvariant.Step)
    requires AnswerTo(l, step).Woken? && AnswerTo(l, step).wake.WakeCached?
    ensures step.op.key in l.entries && l.entries[step.op.key].response.Some?
    ensures !l.entries[step.op.key].pending
    ensures step.op.Wake2? ==> l.entries[step.op.key].wake.Some? && l.entries[step.op.key].wake.value.attempt == 2
    ensures var event, receipt := l.entries[step.op.key].response.value.event, AnswerTo(l, step).wake.receipt.event;
            if event.CommandExecuted? then receipt == event.(deadlineMs := receipt.deadlineMs) else receipt == event
  {
  }

  lemma FirstGrant(l: State, step: LedgerInvariant.Step)
    requires step.op.Wake1? && Grants(AnswerTo(l, step))
    ensures step.op.key !in l.entries || l.entries[step.op.key].expires <= step.now
    ensures step.op.key in Apply(l, step).entries
    ensures Apply(l, step).entries[step.op.key] == FirstReservation(step.op.request, step.op.draw, step.now)
    ensures AnswerTo(l, step).wake.ticket == step.op.draw
  {
  }

  lemma SecondGrant(l: State, step: LedgerInvariant.Step)
    requires step.op.Wake2? && Grants(AnswerTo(l, step))
    ensures step.op.key in l.entries && step.op.key in Apply(l, step).entries
    ensures l.entries[step.op.key].wake.Some?
    ensures Apply(l, step).entries[step.op.key] == SecondReservation(l.entries[step.op.key], step.now)
    ensures AnswerTo(l, step).wake.ticket == l.entries[step.op.key].wake.value.ticket == step.op.ticket
  {
  }

  /** Every lease of the operation survives a ledger operation that does not redeem its ticket. */
  lemma LeasesStay(o: Operation, s: System, t: System, step: LedgerInvariant.Step)
    requires LedgerOk(s) && Allowed(s.ledger, step.op) && step.now == s.now == t.now
    requires o.key in s.ledger.entries ==> s.granted > 0 && EntryOk(o, s, s.ledger.entries[o.key])
    requires step.op.Wake1? ==> step.op.draw !in s.drawn
    requires step.op.key == o.key ==> !Grants(AnswerTo(s.ledger, step))
    requires t.ledger == Apply(s.ledger, step) && t.ticket == s.ticket && t.granted == s.granted
    ensures forall since, settled :: since <= s.now && Lease(o, s, since, settled) ==> Lease(o, t, since, settled)
  {
    hide Apply, AnswerTo;
    forall since, settled | since <= s.now && Lease(o, s, since, settled) ensures Lease(o, t, since, settled) {
      if s.now < since + RETRY_TTL {
        assert s.ticket in Tickets(s.ledger);
        LeaseStep(s.ledger, step, o.key, o.request, s.ticket, since + RETRY_TTL, settled, s.now);
      }
    }
  }

  /** No wake request that is not granted brings the end of a retry lease forward. */
  lemma LeaseNeverShrinks(l: State, step: LedgerInvariant.Step, before: int)
    requires Invariant(l, before) && before <= step.now
    requires (step.op.Wake1? || step.op.Wake2?) && !Grants(AnswerTo(l, step))
    requires step.op.key in l.entries && l.entries[step.op.key].wake.Some?
    ensures step.op.key in Apply(l, step).entries ==>
              var wake := Apply(l, step).entries[step.op.key].wake;
              wake.Some? && wake.value.ticketExpires >= l.entries[step.op.key].wake.value.ticketExpires
  {
    assert Sound(l.entries[step.op.key], before);
  }

  // ----- Every step keeps the invariant -----

  lemma AdvanceOk(o: Operation, s: System, to: int)
    requires Ok(o, s) && Enabled(o, s, Advance(to))
    ensures Ok(o, Next(o, s, Advance(to)))
  {
    var t := s.(now := to);
    LaterInvariant(s.ledger, s.now, to);
    assert forall since, settled :: Lease(o, s, since, settled) ==> Lease(o, t, since, settled);
    forall n | n in t.notices ensures NoticeOk(o, t, n) { assert NoticeOk(o, s, n); }
    forall m | m in t.submissions ensures SubmissionOk(o, t, m) { assert SubmissionOk(o, s, m); }
  }

  /** Steps of the client alone leave the server side as it is. */
  lemma ClientSideOk(o: Operation, s: System, t: System)
    requires Ok(o, s)
    requires t == s.(screen := t.screen, submissions := t.submissions, secondAt := t.secondAt, taken := t.taken,
                     takenAt := t.takenAt)
    requires t.secondAt == s.secondAt || (s.secondAt.None? && t.secondAt == Some(s.now))
    requires ClientOk(o, t)
    requires forall m :: m in t.submissions && m !in s.submissions ==> SubmissionOk(o, t, m)
    ensures Ok(o, t)
  {
    forall n | n in t.notices ensures NoticeOk(o, t, n) { assert NoticeOk(o, s, n); }
    forall m | m in t.submissions ensures SubmissionOk(o, t, m) {
      if m in s.submissions { assert SubmissionOk(o, s, m); }
    }
  }

  /** Steps of the server that grant nothing: the client's side and its leases stay as they are. */
  lemma ServerSideOk(o: Operation, s: System, t: System)
    requires Ok(o, s)
    requires t == s.(ledger := t.ledger, notices := t.notices, worker := t.worker, drawn := t.drawn,
                     results := t.results, prompt := t.prompt)
    requires t.worker == s.worker || t.worker.None?
    requires t.prompt ==> s.prompt
    requires LedgerOk(t) && ServerOk(o, t)
    requires forall since, settled :: since <= s.now && Lease(o, s, since, settled) ==> Lease(o, t, since, settled)
    requires forall since :: Opened(o, s, since) ==> Opened(o, t, since)
    requires forall n :: n in t.notices && n !in s.notices ==> NoticeOk(o, t, n)
    ensures Ok(o, t)
  {
    hide Lease, LedgerOk, ServerOk, Opened;
    forall n | n in t.notices
      ensures NoticeOk(o, t, n)
    {
      if n in s.notices {
        assert NoticeOk(o, s, n);
      }
    }
    forall m | m in t.submissions
      ensures SubmissionOk(o, t, m)
    {
      assert SubmissionOk(o, s, m);
    }
  }

  lemma ConnectedShape(screen: S.Screen, now: int, alive: bool)
    ensures var (after, command) := S.Connected(screen, now, alive);
            && (after.wake.Some? <==> screen.wake.Some?)
            && (screen.wake.Some? ==>
                  var v, w := screen.wake.value, after.wake.value;
                  && w == v.(receipt := w.receipt, receiptDeadline := w.receiptDeadline, finished := w.finished)
                  && (w.receipt ==> v.receipt))
            && (command.Some? ==>
                  && screen.wake.Some? && P.CanRecover(screen.wake.value.progress, now)
                  && command.value.attempt == screen.wake.value.attempt
                  && (command.value.attempt == 2 ==> command.value.retryTicket == screen.wake.value.ticket != None))
  {
  }

  lemma ConnectOk(o: Operation, s: System, alive: bool)
    requires Ok(o, s)
    ensures Ok(o, Next(o, s, Connect(alive)))
  {
    ConnectedShape(s.screen, s.now, alive);
    assert s.startedAt <= s.now;
    hide LeaseHeld, LedgerOk, ServerOk, LogOk, NoticeOk, Opened, S.Connected, Fresh, WakeServer.Begun;
    ClientSideOk(o, s, Next(o, s, Connect(alive)));
  }

  /** A tick that does not ask for the second attempt sends nothing, and at most ends the operation. */
  lemma QuietTick(screen: S.Screen, now: int, alive: bool)
    requires !S.AsksForSecondAttempt(screen, now, alive)
    ensures var (after, command) := S.Tick(screen, now, alive);
            && command == None
            && (after.wake == None || after.wake == screen.wake ||
                (screen.wake.Some? && after.wake == Some(screen.wake.value.(finished := true))))
  {
  }

  lemma TickOk(o: Operation, s: System, alive: bool)
    requires Ok(o, s)
    ensures Ok(o, Next(o, s, Tick(alive)))
  {
    if S.AsksForSecondAttempt(s.screen, s.now, alive) {
      hide Ok, Next;
      AskOk(o, s, alive);
    } else {
      hide LeaseHeld, LedgerOk, ServerOk, Opened, S.Tick;
      QuietTick(s.screen, s.now, alive);
      var t := Next(o, s, Tick(alive));
      assert t == s.(screen := t.screen);
      ClientSideOk(o, s, t);
    }
  }

  lemma AskOk(o: Operation, s: System, alive: bool)
    requires Ok(o, s) && S.AsksForSecondAttempt(s.screen, s.now, alive)
    ensures Ok(o, Next(o, s, Tick(alive)))
  {
    var t := Next(o, s, Tick(alive));
    var ready := Max(s.screen.wake.value.deadline, s.takenAt);
    var basis := Basis(s.taken.value.builtAt, s.taken.value.indexed, s.takenAt, ready);
    var m := Submission(2, Some(s.ticket), s.now, Some(basis));
    assert t.submissions == s.submissions + {m};
    assert NoticeOk(o, s, s.taken.value) && BasisOk(o, t, basis);
    ClientSideOk(o, s, t);
  }

  lemma TakeNoticeOk(o: Operation, s: System, n: Notice)
    requires Ok(o, s) && n in s.notices
    ensures Ok(o, Next(o, s, TakeNotice(n)))
  {
    hide LeaseHeld, LedgerOk, ServerOk;
    assert NoticeOk(o, s, n);
    ClientSideOk(o, s, Next(o, s, TakeNotice(n)));
  }

  lemma OtherClientStepsOk(o: Operation, s: System, step: Step)
    requires Ok(o, s) && (step.LoseConnection? || step.Disconnect? || step.Leave? || step.SeeOnline?)
    ensures Ok(o, Next(o, s, step))
  {
    ClientSideOk(o, s, Next(o, s, step));
  }

  lemma ForeignOk(o: Operation, s: System, op: Op)
    requires Ok(o, s) && Enabled(o, s, Foreign(op))
    ensures Ok(o, Next(o, s, Foreign(op)))
  {
    hide Apply, AnswerTo, LeaseHeld, ClientOk, SubmissionOk, NoticeOk;
    var step := LedgerInvariant.Step(s.now, op);
    var t := Next(o, s, Foreign(op));
    assert LedgerOk(t) by {
      StepKeepsInvariant(s.ledger, step, s.now);
      TicketsStep(s.ledger, step, s.drawn);
    }
    LeasesStay(o, s, t, step);
    ForeignEntry(s.ledger, step, o.key);
    hide LedgerOk;
    assert ServerOk(o, t);
    ServerSideOk(o, s, t);
  }

  lemma ForeignEntry(l: State, step: LedgerInvariant.Step, key: OperationKey)
    requires step.op.key != key
    ensures key in l.entries && l.entries[key].expires > step.now ==> key in Apply(l, step).entries
    ensures key in Apply(l, step).entries ==> key in l.entries && l.entries[key] == Apply(l, step).entries[key]
  {
  }

  lemma FinishOk(o: Operation, s: System, results: seq<WakeResult>, envelope: ServerEnvelope)
    requires Ok(o, s) && Enabled(o, s, Finish(results, envelope))
    ensures Ok(o, Next(o, s, Finish(results, envelope)))
  {
    hide LeaseHeld, ClientOk, SubmissionOk, NoticeOk;
    var step := LedgerInvariant.Step(s.now, LedgerInvariant.Complete(o.key, envelope));
    var t := Next(o, s, Finish(results, envelope));
    assert t.ledger == Apply(s.ledger, step);
    assert LedgerOk(t) by {
      StepKeepsInvariant(s.ledger, step, s.now);
      TicketsStep(s.ledger, step, s.drawn);
    }
    LeasesStay(o, s, t, step);
    FinishedNoticeOk(o, s, results, envelope);
    WakeServer.ReceiptNamesTheHosts(results, o.targets);
    hide LedgerOk, Apply;
    assert ServerOk(o, t);
    ServerSideOk(o, s, t);
  }

  /** A well-formed submission is served by one step of the ledger. */
  lemma ServeIsALedgerStep(o: Operation, s: System, m: Submission, draw: nat, wall: nat)
    requires Ok(o, s) && Enabled(o, s, Serve(m, draw, wall))
    ensures SubmissionOk(o, s, m) && draw !in s.drawn && WakeServer.Distinct(o.targets)
    ensures var step := LedgerStep(o, s, m, draw, wall);
            && AnswerTo(s.ledger, step) == Woken(Answer(o, s, m, draw, wall))
            && Next(o, s, Serve(m, draw, wall)) == Served(s, m, Apply(s.ledger, step), Answer(o, s, m, draw, wall))
  {
    hide BeginWake1, BeginWake2, LeaseHeld, LedgerOk, ServerOk, ClientOk;
    assert SubmissionOk(o, s, m);
  }

  lemma FinishedNoticeOk(o: Operation, s: System, results: seq<WakeResult>, envelope: ServerEnvelope)
    requires Ok(o, s) && Enabled(o, s, Finish(results, envelope))
    ensures var t := Next(o, s, Finish(results, envelope));
            forall n :: n in t.notices && n !in s.notices ==> NoticeOk(o, t, n)
  {
    hide LeaseHeld, AnswerTo, ClientOk, SubmissionOk;
    var step := LedgerInvariant.Step(s.now, LedgerInvariant.Complete(o.key, envelope));
    if s.worker.value.attempt == 1 && s.now < s.worker.value.startedAt + RETRY_TTL {
      CompletionOpensLease(s.ledger, step, o.request, s.ticket, s.worker.value.startedAt + RETRY_TTL, s.now);
    }
  }

  lemma AnswerLeavesLedger(o: Operation, s: System, m: Submission, draw: nat, wall: nat)
    requires Ok(o, s) && Enabled(o, s, Serve(m, draw, wall))
    requires !Grants(AnswerTo(s.ledger, LedgerStep(o, s, m, draw, wall)))
    ensures var t := Next(o, s, Serve(m, draw, wall));
            && t == s.(ledger := Apply(s.ledger, LedgerStep(o, s, m, draw, wall)), notices := t.notices)
            && LedgerOk(t)
            && forall since, settled :: since <= s.now && Lease(o, s, since, settled) ==> Lease(o, t, since, settled)
  {
    hide Enabled, Answer, Apply, AnswerTo, LeaseHeld, ClientOk, LogOk, NoticeOk, SubmissionOk, Next, EntryOk, Invariant;
    ServeIsALedgerStep(o, s, m, draw, wall);
    var step := LedgerStep(o, s, m, draw, wall);
    StepKeepsInvariant(s.ledger, step, s.now);
    TicketsStep(s.ledger, step, s.drawn);
    LeasesStay(o, s, Next(o, s, Serve(m, draw, wall)), step);
  }

  lemma AnswerLeavesServer(o: Operation, s: System, m: Submission, draw: nat, wall: nat)
    requires Ok(o, s) && Enabled(o, s, Serve(m, draw, wall))
    requires !Grants(AnswerTo(s.ledger, LedgerStep(o, s, m, draw, wall)))
    ensures var t := Next(o, s, Serve(m, draw, wall));
            && LedgerOk(t) && ServerOk(o, t) && t == s.(ledger := t.ledger, notices := t.notices)
            && forall since, settled :: since <= s.now && Lease(o, s, since, settled) ==> Lease(o, t, since, settled)
    ensures forall since :: Opened(o, s, since) ==> Opened(o, Next(o, s, Serve(m, draw, wall)), since)
  {
    hide Enabled, Answer, Apply, AnswerTo, LeaseHeld, ClientOk, NoticeOk, SubmissionOk, Next, Lease;
    ServeIsALedgerStep(o, s, m, draw, wall);
    var step := LedgerStep(o, s, m, draw, wall);
    AnswerLeavesLedger(o, s, m, draw, wall);
    UngrantedStep(s.ledger, step);
    if o.key in s.ledger.entries {
      LeaseNeverShrinks(s.ledger, step, s.now);
    }
    hide LedgerOk;
  }

  /** The server answers a submission from the ledger, without a grant. */
  lemma AnswerOk(o: Operation, s: System, m: Submission, draw: nat, wall: nat)
    requires Ok(o, s) && Enabled(o, s, Serve(m, draw, wall))
    requires !Grants(AnswerTo(s.ledger, LedgerStep(o, s, m, draw, wall)))
    ensures Ok(o, Next(o, s, Serve(m, draw, wall)))
  {
    ServeIsALedgerStep(o, s, m, draw, wall);
    hide Apply, AnswerTo, LeaseHeld, LedgerOk, ServerOk, ClientOk, SubmissionOk, NoticeOk, Opened, Next;
    AnswerLeavesServer(o, s, m, draw, wall);
    if Next(o, s, Serve(m, draw, wall)).notices != s.notices {
      NewNoticeOk(o, s, m, draw, wall);
    }
    ServerSideOk(o, s, Next(o, s, Serve(m, draw, wall)));
  }

  lemma NewNoticeOk(o: Operation, s: System, m: Submission, draw: nat, wall: nat)
    requires Ok(o, s) && Enabled(o, s, Serve(m, draw, wall))
    requires var answer := AnswerTo(s.ledger, LedgerStep(o, s, m, draw, wall));
             answer.Woken? && answer.wake.WakeCached? && answer.wake.receipt.event.CommandExecuted?
    ensures var t := Next(o, s, Serve(m, draw, wall));
            forall n :: n in t.notices && n !in s.notices ==> NoticeOk(o, t, n)
  {
    hide Enabled, Answer, Apply, AnswerTo, Next;
    ServeIsALedgerStep(o, s, m, draw, wall);
    var step := LedgerStep(o, s, m, draw, wall);
    assert SubmissionOk(o, s, m);
    CachedReceipt(s.ledger, step);
    if m.attempt == 1 {
      RenewalOpensLease(s.ledger, step, o.request, s.ticket);
    }
  }

  /** A first attempt is granted only once: later submissions of it arrive while the entry is alive. */
  lemma FirstGrantIsFirst(o: Operation, s: System, m: Submission, draw: nat, wall: nat)
    requires Ok(o, s) && Enabled(o, s, Serve(m, draw, wall)) && m.attempt == 1
    requires Grants(AnswerTo(s.ledger, LedgerStep(o, s, m, draw, wall)))
    ensures s.granted == 0
  {
    ServeIsALedgerStep(o, s, m, draw, wall);
    hide Apply, AnswerTo, Next;
    assert SubmissionOk(o, s, m);
    FirstGrant(s.ledger, LedgerStep(o, s, m, draw, wall));
  }

  /** The log of a new grant has nothing of the attempt yet. */
  lemma GrantKeepsLog(o: Operation, s: System, t: System)
    requires LogOk(o, s) && t.log == s.log && t.granted == s.granted + 1
    requires t.worker.Some? && t.worker.value.attempt == t.granted
    ensures LogOk(o, t)
  {
  }

  /** A worker asks for a packet that it has not asked for yet, because the targets are different hosts. */
  lemma SendOk(o: Operation, s: System)
    requires Ok(o, s) && Enabled(o, s, Send)
    ensures Ok(o, Next(o, s, Send))
  {
    hide LeaseHeld;
    var t := Next(o, s, Send);
    assert Dispatch(s.worker.value.attempt, o.targets[s.worker.value.done]) !in s.log;
    forall n | n in t.notices
      ensures NoticeOk(o, t, n)
    {
      assert NoticeOk(o, s, n);
    }
    forall m | m in t.submissions
      ensures SubmissionOk(o, t, m)
    {
      assert SubmissionOk(o, s, m);
    }
  }

  /** The packets of some turns of the dispatch loop. */
  function Packets(attempt: nat, hosts: seq<Text>): multiset<Dispatch> {
    if hosts == [] then multiset{} else multiset{Dispatch(attempt, hosts[0])} + Packets(attempt, hosts[1..])
  }

  function Sends(n: nat): seq<Step> {
    if n == 0 then [] else [Send] + Sends(n - 1)
  }

  function AfterSends(s: System, hosts: seq<Text>): System
    requires s.worker.Some?
  {
    var w := s.worker.value;
    s.(log := s.log + Packets(w.attempt, hosts), worker := Some(w.(done := w.done + |hosts|)))
  }

  lemma OneSend(o: Operation, s: System, hosts: seq<Text>)
    requires s.worker.Some? && s.worker.value.done < |o.targets| && hosts != []
    requires hosts[0] == o.targets[s.worker.value.done]
    ensures Enabled(o, s, Send) && Next(o, s, Send).worker.Some?
    ensures AfterSends(Next(o, s, Send), hosts[1..]) == AfterSends(s, hosts)
  {
    var attempt := s.worker.value.attempt;
    var first, rest := multiset{Dispatch(attempt, hosts[0])}, Packets(attempt, hosts[1..]);
    assert s.log + first + rest == s.log + (first + rest);
  }

  /** The steps of a worker log what the dispatch loop asks for: `WakeServer.Dispatch` ensures `calls <= Ids(hosts)`. */
  lemma {:induction false} DispatchIsASeriesOfSends(o: Operation, s: System, calls: seq<Text>)
    requires s.worker.Some? && s.worker.value.done <= |o.targets| && calls <= o.targets[s.worker.value.done..]
    ensures Run(o, s, Sends(|calls|)) == Some(AfterSends(s, calls))
    decreases calls
  {
    if calls == [] {
      assert s.log + Packets(s.worker.value.attempt, calls) == s.log;
    } else {
      OneSend(o, s, calls);
      assert Next(o, s, Send).worker.value.done == s.worker.value.done + 1;
      hide Next, Enabled, AfterSends;
      assert calls[1..] <= o.targets[s.worker.value.done + 1..];
      DispatchIsASeriesOfSends(o, Next(o, s, Send), calls[1..]);
      assert Sends(|calls|)[0] == Send && Sends(|calls|)[1..] == Sends(|calls| - 1);
    }
  }

  lemma FirstGrantOk(o: Operation, s: System, m: Submission, draw: nat, wall: nat)
    requires Ok(o, s) && Enabled(o, s, Serve(m, draw, wall)) && m.attempt == 1
    requires Grants(AnswerTo(s.ledger, LedgerStep(o, s, m, draw, wall)))
    ensures Ok(o, Next(o, s, Serve(m, draw, wall)))
  {
    hide Enabled, Answer, Apply, AnswerTo, Next;
    ServeIsALedgerStep(o, s, m, draw, wall);
    var step := LedgerStep(o, s, m, draw, wall);
    var t := Next(o, s, Serve(m, draw, wall));
    FirstGrantIsFirst(o, s, m, draw, wall);
    FirstGrant(s.ledger, step);
    StepKeepsInvariant(s.ledger, step, s.now);
    TicketsStep(s.ledger, step, s.drawn);
    ReservationOpensLease(s.ledger, step);
    GrantKeepsLog(o, s, t);
    assert t.notices == s.notices == {};
    forall m | m in t.submissions ensures SubmissionOk(o, t, m) { assert SubmissionOk(o, s, m); }
  }

  /** The server after it granted the second attempt. */
  lemma SecondGrantServerOk(o: Operation, s: System, m: Submission, draw: nat, wall: nat)
    requires Ok(o, s) && Enabled(o, s, Serve(m, draw, wall)) && m.attempt != 1
    requires Grants(AnswerTo(s.ledger, LedgerStep(o, s, m, draw, wall)))
    ensures var t := Next(o, s, Serve(m, draw, wall));
            && s.granted == 1 && t.granted == 2 && SubmissionOk(o, s, m) && m.attempt == 2
            && t == s.(ledger := t.ledger, granted := 2, worker := t.worker, ticket := s.ticket, drawn := t.drawn)
            && LedgerOk(t) && ServerOk(o, t) && LogOk(o, t)
  {
    hide Enabled, Answer, Apply, AnswerTo, Next, LeaseHeld, NoticeOk;
    ServeIsALedgerStep(o, s, m, draw, wall);
    var step := LedgerStep(o, s, m, draw, wall);
    var t := Next(o, s, Serve(m, draw, wall));
    assert SubmissionOk(o, s, m);
    GrantRedeems(s.ledger, step);
    SecondGrant(s.ledger, step);
    StepKeepsInvariant(s.ledger, step, s.now);
    TicketsStep(s.ledger, step, s.drawn);
    GrantKeepsLog(o, s, t);
    assert s.ticket in Tickets(s.ledger);
  }

  lemma SecondGrantOk(o: Operation, s: System, m: Submission, draw: nat, wall: nat)
    requires Ok(o, s) && Enabled(o, s, Serve(m, draw, wall)) && m.attempt != 1
    requires Grants(AnswerTo(s.ledger, LedgerStep(o, s, m, draw, wall)))
    ensures Ok(o, Next(o, s, Serve(m, draw, wall)))
  {
    hide Next, Enabled, LedgerStep, AnswerTo, LedgerOk, ServerOk, LogOk, LeaseHeld;
    SecondGrantServerOk(o, s, m, draw, wall);
    var t := Next(o, s, Serve(m, draw, wall));
    forall n | n in t.notices ensures NoticeOk(o, t, n) { assert NoticeOk(o, s, n); }
    forall m | m in t.submissions ensures SubmissionOk(o, t, m) { assert SubmissionOk(o, s, m); }
  }

  /** Every enabled step keeps the invariant. */
  lemma StepOk(o: Operation, s: System, step: Step)
    requires Ok(o, s) && Enabled(o, s, step)
    ensures Ok(o, Next(o, s, step))
  {
    hide Next, Ok;
    match step
    case Advance(to) => AdvanceOk(o, s, to);
    case Connect(alive) => ConnectOk(o, s, alive);
    case Tick(alive) => TickOk(o, s, alive);
    case TakeNotice(n) => TakeNoticeOk(o, s, n);
    case Foreign(op) => ForeignOk(o, s, op);
    case Send => SendOk(o, s);
    case Finish(results, envelope) => FinishOk(o, s, results, envelope);
    case Serve(m, draw, wall) =>
      if !Grants(AnswerTo(s.ledger, LedgerStep(o, s, m, draw, wall))) {
        AnswerOk(o, s, m, draw, wall);
      } else if m.attempt == 1 {
        FirstGrantOk(o, s, m, draw, wall);
      } else {
        SecondGrantOk(o, s, m, draw, wall);
      }
    case _ => OtherClientStepsOk(o, s, step);
  }

  lemma {:induction false} RunOk(o: Operation, states: seq<System>, steps: seq<Step>, i: nat)
    requires IsRun(o, states, steps) && i <= |steps|
    ensures Ok(o, states[i])
  {
    hide Next, Ok, Enabled, Initial;
    if i == 0 {
      InitialOk(o, states[0]);
    } else {
      RunOk(o, states, steps, i - 1);
      assert StepAt(o, states, steps, i - 1);
      StepOk(o, states[i - 1], steps[i - 1]);
    }
  }

  lemma ReachableOk(o: Operation, s: System)
    requires Reachable(o, s)
    ensures Ok(o, s)
  {
    hide Ok, StepAt, Initial;
    var states: seq<System>, steps: seq<Step> :| IsRun(o, states, steps) && states[|steps|] == s;
    RunOk(o, states, steps, |steps|);
  }

  lemma OneMoreStep(o: Operation, s: System, step: Step)
    requires Reachable(o, s) && Enabled(o, s, step)
    ensures Reachable(o, Next(o, s, step))
  {
    hide Next, Enabled, Initial;
    var states: seq<System>, steps: seq<Step> :| IsRun(o, states, steps) && states[|steps|] == s;
    var more, all := states + [Next(o, s, step)], steps + [step];
    forall i: nat | i < |all| ensures StepAt(o, more, all, i) {
      if i < |steps| { assert StepAt(o, states, steps, i); }
    }
    assert IsRun(o, more, all) && more[|all|] == Next(o, s, step);
  }

  /** Any further steps lead to a reachable state. */
  lemma {:induction false} RunReaches(o: Operation, s: System, steps: seq<Step>)
    requires Reachable(o, s) && Run(o, s, steps).Some?
    ensures Reachable(o, Run(o, s, steps).value)
    decreases steps
  {
    hide Next, Enabled, Reachable;
    if steps == [] {
    } else {
      OneMoreStep(o, s, steps[0]);
      RunReaches(o, Next(o, s, steps[0]), steps[1..]);
    }
  }

  // ----- The promises of the protocol -----

  /** Messages stay under way: orders that the screen places reach the network with what they ask for, a completion
      sends its receipt, a packet is logged, and no message is taken out. */
  lemma MessagesTravel(o: Operation, s: System, step: Step)
    requires Enabled(o, s, step)
    ensures s.submissions <= Next(o, s, step).submissions && s.notices <= Next(o, s, step).notices
    ensures step.Connect? ==>
              var command := S.Connected(s.screen, s.now, step.alive).1;
              command.Some? ==> exists m :: m in Next(o, s, step).submissions && m.attempt == command.value.attempt
                                            && m.ticket == command.value.retryTicket && m.sentAt == s.now
    ensures step.Tick? ==>
              var command := S.Tick(s.screen, s.now, step.alive).1;
              command.Some? ==> exists m :: m in Next(o, s, step).submissions && m.attempt == command.value.attempt
                                            && m.ticket == command.value.retryTicket && m.sentAt == s.now
    ensures step.Finish? ==> exists n :: n in Next(o, s, step).notices && n.attempt == s.worker.value.attempt
                                         && n.ticket == s.ticket && n.results == step.results && n.builtAt == s.now
    ensures step.Send? ==>
              var packet := Dispatch(s.worker.value.attempt, o.targets[s.worker.value.done]);
              Next(o, s, step).log == s.log[packet := s.log[packet] + 1]
  {
    hide S.Connected, Fresh, Allowed, Apply, LedgerSpec.Complete, WakeServer.Begun;
    var t := Next(o, s, step);
    match step
    case Connect(alive) =>
      var command := S.Connected(s.screen, s.now, alive).1;
      if command.Some? {
        assert Submission(command.value.attempt, command.value.retryTicket, s.now, None) in t.submissions;
      }
    case Tick(alive) =>
      var command := S.Tick(s.screen, s.now, alive).1;
      if command.Some? {
        var basis := if s.taken.None? then None
                     else Some(Basis(s.taken.value.builtAt, s.taken.value.indexed, s.takenAt,
                                     Max(s.screen.wake.value.deadline, s.takenAt)));
        assert Submission(command.value.attempt, command.value.retryTicket, s.now, basis) in t.submissions;
      }
    case Finish(results, envelope) =>
      assert Notice(s.worker.value.attempt, s.ticket, s.now, s.now < s.worker.value.startedAt + RETRY_TTL, results)
             in t.notices;
    case _ =>
  }

  /** In every reachable state the wake sender ran at most once for each attempt and host, and only for attempts
      1 and 2, so at most twice for a host. */
  lemma SentAtMostOncePerAttempt(o: Operation, s: System, host: Text)
    requires Reachable(o, s)
    ensures forall attempt: nat :: s.log[Dispatch(attempt, host)] <= if attempt in {1, 2} then 1 else 0
    ensures s.log[Dispatch(1, host)] + s.log[Dispatch(2, host)] <= 2
  {
    hide Reachable;
    ReachableOk(o, s);
    assert s.granted <= 2;
    forall attempt: nat ensures s.log[Dispatch(attempt, host)] <= if attempt in {1, 2} then 1 else 0 {
      assert Dispatch(attempt, host) in s.log ==> s.log[Dispatch(attempt, host)] == 1 && 1 <= attempt <= s.granted;
    }
  }

  /** The first submission of a new operation is granted while the ledger has room. */
  lemma FirstSubmissionIsGranted(o: Operation, s: System, m: Submission, draw: nat, wall: nat)
    requires Reachable(o, s) && Enabled(o, s, Serve(m, draw, wall))
    requires m.attempt == 1 && s.granted == 0 && LedgerAnswers.Room(s.ledger, o.key.clientKey, s.now)
    ensures Answer(o, s, m, draw, wall) == WakeNew(draw)
    ensures var t := Next(o, s, Serve(m, draw, wall));
            t.worker == Some(Worker(1, s.now, 0)) && t.granted == 1 && t.ticket == draw
  {
    hide Reachable, LedgerAnswers.Room;
    ReachableOk(o, s);
    assert SubmissionOk(o, s, m);
    WakeServer.NewOperationIsGranted(s.ledger, o.key, o.request, draw, s.now, wall);
  }

  /**
   * A submission for the attempt that was granted last and is completed, arriving within the connect and receipt
   * budgets, is answered with the receipt of that attempt, and a deadline one minute from now: never with
   * Replay and never with a dispatch.
   */
  lemma ResubmissionIsCached(o: Operation, s: System, m: Submission, draw: nat, wall: nat)
    requires Reachable(o, s) && Enabled(o, s, Serve(m, draw, wall))
    requires s.granted == m.attempt && s.worker.None?
    requires s.now <= m.sentAt + CONNECT_TIMEOUT + RECEIPT_TIMEOUT
    ensures var answer := Answer(o, s, m, draw, wall);
            && answer.WakeCached?
            && answer.receipt.requestId == o.key.operationId && answer.receipt.headers == o.headers
            && answer.receipt.event ==
               CommandExecuted(o.key.operationId, m.attempt, s.ticket, SaturatingAdd(wall, 60_000), s.results)
            && HostsOf(s.results) == Elements(o.targets)
    ensures var t := Next(o, s, Serve(m, draw, wall));
            && Notice(m.attempt, s.ticket, s.now, true, s.results) in t.notices
            && t.worker == None && t.granted == s.granted && t.log == s.log
  {
    hide Reachable;
    ReachableOk(o, s);
    assert SubmissionOk(o, s, m);
    var entry := s.ledger.entries[o.key];
    assert Sound(entry, s.now);
    assert LedgerAnswers.Completed(s.ledger, o.key, o.request.digest, m.attempt, s.now);
    hide Invariant, BeginWake1, BeginWake2;
    if m.attempt == 1 {
      LedgerAnswers.FirstAttemptIsRecoveredExactly(s.ledger, o.key, o.request, draw, s.now, wall);
    } else {
      LedgerAnswers.SecondAttemptIsRecoveredExactly(s.ledger, o.key, o.request, s.now, wall);
    }
  }

  /** A submission for an earlier attempt than the one that was granted last and is completed is answered with
      Replay, however late it is served. */
  lemma EarlierAttemptIsReplayed(o: Operation, s: System, m: Submission, draw: nat, wall: nat)
    requires Reachable(o, s) && Enabled(o, s, Serve(m, draw, wall))
    requires m.attempt < s.granted && s.worker.None?
    ensures Answer(o, s, m, draw, wall) == WakeReplay
  {
    hide Reachable;
    ReachableOk(o, s);
    assert SubmissionOk(o, s, m);
    var entry := s.ledger.entries[o.key];
    assert Sound(entry, s.now);
    LedgerAnswers.OldAttemptsAreReplayed(s.ledger, o.key, o.request, draw, s.ticket + 1, s.now, wall);
  }

  /** The ticket of the operation is in the server's index. */
  predicate InIndex(o: Operation, s: System) {
    s.ticket in s.ledger.tickets && s.ledger.tickets[s.ticket] == o.key
  }

  /**
   * The first request for attempt 2, exactly. If the receipt's travel, the delay of the tick after the local wait
   * and the request's travel take less than 30 s together, the retry lease still is open, and the request is
   * granted with its ticket if and only if that ticket is in the server's index. It is, if every dispatch so far
   * completed within RETRY_TTL of its reservation or the receipt relied on was recovered from the cache.
   */
  lemma SecondAttemptIsDecidedByTheIndex(o: Operation, s: System, m: Submission, draw: nat, wall: nat)
    requires Reachable(o, s) && Enabled(o, s, Serve(m, draw, wall))
    requires m.attempt == 2 && m.basis.Some? && s.granted == 1
    requires var b := m.basis.value;
             (b.receivedAt - b.builtAt) + (m.sentAt - b.readyAt) + (s.now - m.sentAt) < 30_000
    ensures Answer(o, s, m, draw, wall) == if InIndex(o, s) then WakeNew(s.ticket) else WakeReplay
    ensures s.prompt || m.basis.value.indexed ==> InIndex(o, s)
  {
    hide Reachable;
    ReachableOk(o, s);
    assert SubmissionOk(o, s, m) && BasisOk(o, s, m.basis.value);
    assert s.now < s.startedAt + LEDGER_TTL;
    assert Sound(s.ledger.entries[o.key], s.now);
    hide Invariant, BeginWake2;
    LedgerAnswers.RedemptionExactly(s.ledger, o.key, o.request, s.ticket, s.now, wall);
  }
}
