// The command-line wake session: a timed loop over the events of the client actor (src/main.rs).

module WakeSession {
  import opened Common
  import opened Timing
  import opened Protocol
  import P = ProgressSpec

  datatype Event =
    | Failed                      // ConnectionFailed or Disconnected
    | Executed(operationId: nat, attempt: nat, ticket: nat, results: seq<WakeResult>, at: int)
    | Online(onlineOperation: nat, onlineAttempt: nat, host: Text)
    | Other

  /** One turn of the loop: the events it drains, then the clock reading of its timers. */
  datatype Turn = Turn(events: seq<Event>, now: int)

  datatype Verdict = Success | Failure | Running

  /** The clock does not go back, and turns are at most `slack` apart. */
  predicate Paced(start: int, turns: seq<Turn>, slack: int) {
    forall k: nat :: k < |turns| ==> TurnPaced(start, turns, k, slack)
  }

  predicate TurnPaced(start: int, turns: seq<Turn>, k: nat, slack: int)
    requires k < |turns|
  {
    var before := if k == 0 then start else turns[k - 1].now;
    && before <= turns[k].now <= before + slack
    && forall e :: e in turns[k].events && e.Executed? ==> before <= e.at <= turns[k].now
  }

  /** The reports about one attempt of the operation among the events. */
  function Reports(events: seq<Event>, operationId: nat, attempt: nat): seq<P.Report> {
    if events == [] then []
    else
      var before, e := Reports(events[..|events| - 1], operationId, attempt), events[|events| - 1];
      if e.Executed? && e.operationId == operationId && e.attempt == attempt then before + [P.Receipt(e.results, e.at)]
      else if e.Online? && e.onlineOperation == operationId && e.onlineAttempt == attempt then
        before + [P.Online(e.host)]
      else before
  }

  /** What a single event reports about an attempt. */
  lemma ReportsOfOne(e: Event, operationId: nat, attempt: nat)
    ensures Reports([], operationId, attempt) == []
    ensures forall results, ticket, at :: e == Executed(operationId, attempt, ticket, results, at) ==>
              Reports([e], operationId, attempt) == [P.Receipt(results, at)]
    ensures forall host :: e == Online(operationId, attempt, host) ==>
              Reports([e], operationId, attempt) == [P.Online(host)]
    ensures e.Failed? || e.Other? || (e.Executed? && (e.operationId != operationId || e.attempt != attempt))
            || (e.Online? && (e.onlineOperation != operationId || e.onlineAttempt != attempt)) ==>
              Reports([e], operationId, attempt) == []
  {
    assert [e][..0] == [];
  }

  lemma {:induction false} ReportsAppend(a: seq<Event>, b: seq<Event>, operationId: nat, attempt: nat)
    ensures Reports(a + b, operationId, attempt) == Reports(a, operationId, attempt) + Reports(b, operationId, attempt)
    decreases b
  {
    if b == [] {
      assert a + b == a;
    } else {
      ReportsAppend(a, b[..|b| - 1], operationId, attempt);
      assert (a + b)[..|a + b| - 1] == a + b[..|b| - 1];
    }
  }

  /** The reports about one attempt during turns `from` to `to`. */
  function History(turns: seq<Turn>, from: nat, to: nat, operationId: nat, attempt: nat): seq<P.Report>
    requires from <= to <= |turns|
  {
    if from == to then []
    else History(turns, from, to - 1, operationId, attempt) + Reports(turns[to - 1].events, operationId, attempt)
  }

  /** All events of turns `from` to `to`, in order. */
  function Events(turns: seq<Turn>, from: nat, to: nat): seq<Event>
    requires from <= to <= |turns|
  {
    if from == to then [] else Events(turns, from, to - 1) + turns[to - 1].events
  }

  /** A history is what all its events report, one after the other. */
  lemma {:induction false} HistoryIsOfAllEvents(turns: seq<Turn>, from: nat, to: nat, operationId: nat, attempt: nat)
    requires from <= to <= |turns|
    ensures History(turns, from, to, operationId, attempt) == Reports(Events(turns, from, to), operationId, attempt)
  {
    if from == to {
    } else {
      HistoryIsOfAllEvents(turns, from, to - 1, operationId, attempt);
      ReportsAppend(Events(turns, from, to - 1), turns[to - 1].events, operationId, attempt);
    }
  }

  predicate IsReceipt(e: Event, operationId: nat, attempt: nat) {
    e.Executed? && e.operationId == operationId && e.attempt == attempt
  }

  /** The ticket of the last receipt of the attempt. */
  function LastTicket(events: seq<Event>, operationId: nat, attempt: nat): Option<nat> {
    if events == [] then None
    else if IsReceipt(events[|events| - 1], operationId, attempt) then Some(events[|events| - 1].ticket)
    else LastTicket(events[..|events| - 1], operationId, attempt)
  }

  lemma {:induction false} LastTicketExactly(events: seq<Event>, operationId: nat, attempt: nat, i: nat)
    requires i < |events| && IsReceipt(events[i], operationId, attempt)
    requires forall j :: i < j < |events| ==> !IsReceipt(events[j], operationId, attempt)
    ensures LastTicket(events, operationId, attempt) == Some(events[i].ticket)
  {
    if i < |events| - 1 {
      LastTicketExactly(events[..|events| - 1], operationId, attempt, i);
    }
  }

  function Newer(last: Option<nat>, before: Option<nat>): Option<nat> {
    if last.Some? then last else before
  }

  lemma {:induction false} LastTicketAppend(a: seq<Event>, b: seq<Event>, operationId: nat, attempt: nat)
    ensures LastTicket(a + b, operationId, attempt) ==
            Newer(LastTicket(b, operationId, attempt), LastTicket(a, operationId, attempt))
    decreases b
  {
    if b == [] {
      assert a + b == a;
    } else {
      LastTicketAppend(a, b[..|b| - 1], operationId, attempt);
      assert (a + b)[..|a + b| - 1] == a + b[..|b| - 1];
    }
  }

  /** The ticket of the last receipt of attempt 1 before turn `to`. */
  function TicketBefore(turns: seq<Turn>, to: nat, operationId: nat): Option<nat>
    requires to <= |turns|
  {
    LastTicket(Events(turns, 0, to), operationId, 1)
  }

  lemma OneMoreTicket(events: seq<Event>, k: nat, operationId: nat, attempt: nat)
    requires k < |events|
    ensures LastTicket(events[..k + 1], operationId, attempt) ==
            if IsReceipt(events[k], operationId, attempt) then Some(events[k].ticket)
            else LastTicket(events[..k], operationId, attempt)
  {
    assert events[..k + 1][..k] == events[..k];
  }

  lemma AfterAppend(created: int, h: seq<P.Report>, r: P.Report)
    ensures P.After(created, h + [r]) == P.Follow(P.After(created, h), r)
  {
    assert (h + [r])[..|h|] == h;
  }

  predicate HasReceipt(h: seq<P.Report>) {
    P.FirstReceipt(h) < |h|
  }

  lemma {:induction false} HasReceiptIff(h: seq<P.Report>)
    ensures HasReceipt(h) <==> exists r :: r in h && r.Receipt?
  {
    if h != [] && h[0].Online? {
      HasReceiptIff(h[1..]);
      assert h == [h[0]] + h[1..];
    }
  }

  /** What the session knows of the current attempt. */
  datatype Attempt = Attempt(progress: P.View, receipt: bool, ticket: Option<nat>)

  ghost predicate Follows(a: Attempt, created: int, h: seq<P.Report>) {
    && a.progress == P.After(created, h)
    && (a.receipt <==> HasReceipt(h))
    && (a.receipt <==> a.progress.startedAt.Some?)
    && (a.receipt ==> a.progress.deadline == a.progress.startedAt.value + WAKE_WAIT_TIMEOUT)
  }

  /** The local wait keeps its start, or starts at a receipt among the events. */
  predicate StartFrom(after: P.View, before: P.View, events: seq<Event>) {
    if before.startedAt.Some? then after.startedAt == before.startedAt
    else after.startedAt.Some? ==> exists e :: e in events && e.Executed? && e.at == after.startedAt.value
  }

  lemma FollowsAppend(a: Attempt, b: Attempt, created: int, h: seq<P.Report>, r: P.Report)
    requires Follows(a, created, h)
    requires b.progress == P.Follow(a.progress, r) && b.receipt == (a.receipt || r.Receipt?)
    ensures Follows(b, created, h + [r])
  {
    AfterAppend(created, h, r);
    HasReceiptIff(h);
    HasReceiptIff(h + [r]);
  }

  lemma FollowsReceipt(a: Attempt, created: int, h: seq<P.Report>, results: seq<WakeResult>, ticket: nat, at: int)
    requires Follows(a, created, h)
    ensures Follows(Attempt(P.Receive(a.progress, results, at), true, Some(ticket)), created,
                    h + [P.Receipt(results, at)])
  {
    FollowsAppend(a, Attempt(P.Receive(a.progress, results, at), true, Some(ticket)), created, h,
                  P.Receipt(results, at));
  }

  lemma FollowsOnline(a: Attempt, created: int, h: seq<P.Report>, host: Text)
    requires Follows(a, created, h)
    ensures Follows(a.(progress := P.Observe(a.progress, host).0), created, h + [P.Online(host)])
    ensures host !in a.progress.accepted ==> Follows(a, created, h + [P.Online(host)])
  {
    FollowsAppend(a, a.(progress := P.Observe(a.progress, host).0), created, h, P.Online(host));
  }

  lemma OneMoreEvent(events: seq<Event>, k: nat, operationId: nat, attempt: nat, h: seq<P.Report>)
    requires k < |events|
    ensures var e := events[k];
            h + Reports(events[..k + 1], operationId, attempt) ==
            h + Reports(events[..k], operationId, attempt) +
            (if e.Executed? && e.operationId == operationId && e.attempt == attempt then [P.Receipt(e.results, e.at)]
             else if e.Online? && e.onlineOperation == operationId && e.onlineAttempt == attempt then [P.Online(e.host)]
             else [])
  {
    assert events[..k + 1][..k] == events[..k];
  }

  /** What the events drained so far made of the attempt. */
  ghost predicate Drained(after: Attempt, before: Attempt, events: seq<Event>, operationId: nat, attempt: nat) {
    && StartFrom(after.progress, before.progress, events)
    && ((before.receipt ==> before.ticket.Some?) ==> (after.receipt ==> after.ticket.Some?))
  }

  lemma DrainedReceipt(after: Attempt, before: Attempt, events: seq<Event>, operationId: nat, attempt: nat, e: Event)
    requires Drained(after, before, events, operationId, attempt)
    requires e in events && e.Executed? && e.operationId == operationId && e.attempt == attempt
    ensures Drained(Attempt(P.Receive(after.progress, e.results, e.at), true, Some(e.ticket)), before, events,
                    operationId, attempt)
  {
  }

  lemma DrainedOnline(after: Attempt, before: Attempt, events: seq<Event>, operationId: nat, attempt: nat, host: Text)
    requires Drained(after, before, events, operationId, attempt)
    ensures Drained(after.(progress := P.Observe(after.progress, host).0), before, events, operationId, attempt)
  {
  }

  /** The connection failed, or a receipt of the attempt accepts no host. */
  predicate Fatal(e: Event, operationId: nat, attempt: nat) {
    || e.Failed?
    || (e.Executed? && e.operationId == operationId && e.attempt == attempt &&
        forall r :: r in e.results ==> !r.accepted)
  }

  predicate Breaks(events: seq<Event>, operationId: nat, attempt: nat) {
    exists e :: e in events && Fatal(e, operationId, attempt)
  }

  lemma BreaksStep(events: seq<Event>, k: nat, operationId: nat, attempt: nat)
    requires k < |events|
    ensures Breaks(events[..k + 1], operationId, attempt) <==>
              Breaks(events[..k], operationId, attempt) || Fatal(events[k], operationId, attempt)
    ensures Breaks(events[..k + 1], operationId, attempt) ==> Breaks(events, operationId, attempt)
  {
    hide Fatal;
    assert events[..k + 1] == events[..k] + [events[k]];
  }

  lemma FatalCases(e: Event, operationId: nat, attempt: nat, p: P.View)
    ensures Fatal(e, operationId, attempt) <==>
              || e.Failed?
              || (e.Executed? && e.operationId == operationId && e.attempt == attempt
                  && P.Receive(p, e.results, e.at).accepted == {})
  {
    if e.Executed? {
      var accepted := P.Receive(p, e.results, e.at).accepted;
      assert forall r :: r in e.results && r.accepted ==> r.hostId in accepted;
    }
  }

  /** Drains the events of one turn; stops early at a failure. */
  method Drain(events: seq<Event>, operationId: nat, attempt: nat, before: Attempt, ghost created: int,
               ghost h: seq<P.Report>)
    returns (after: Attempt, failed: bool)
    requires Follows(before, created, h)
    ensures failed <==> Breaks(events, operationId, attempt)
    ensures !failed ==> Follows(after, created, h + Reports(events, operationId, attempt))
    ensures Drained(after, before, events, operationId, attempt)
    ensures !failed ==> after.ticket == Newer(LastTicket(events, operationId, attempt), before.ticket)
  {
    assert Reports(events[..0], operationId, attempt) == [] && h + [] == h;
    assert Drained(before, before, events, operationId, attempt) && !Breaks(events[..0], operationId, attempt);
    assert LastTicket(events[..0], operationId, attempt) == None;
    hide Follows, Reports, LastTicket, P.Receive, P.Observe, Drained, Breaks, Fatal;
    after, failed := before, false;
    var k := 0;
    while k < |events|
      invariant k <= |events|
      invariant Follows(after, created, h + Reports(events[..k], operationId, attempt))
      invariant Drained(after, before, events, operationId, attempt)
      invariant !Breaks(events[..k], operationId, attempt)
      invariant after.ticket == Newer(LastTicket(events[..k], operationId, attempt), before.ticket)
    {
      ghost var was, done := after, h + Reports(events[..k], operationId, attempt);
      var e := events[k];
      OneMoreEvent(events, k, operationId, attempt, h);
      OneMoreTicket(events, k, operationId, attempt);
      BreaksStep(events, k, operationId, attempt);
      FatalCases(e, operationId, attempt, after.progress);
      match e {
        case Failed => return after, true;
        case Executed(operation, number, ticket, results, at) =>
          if operation == operationId && number == attempt {
            DrainedReceipt(after, before, events, operationId, attempt, e);
            after := Attempt(P.Receive(after.progress, results, at), true, Some(ticket));
            FollowsReceipt(was, created, done, results, ticket, at);
            if after.progress.accepted == {} {
              return after, true;
            }
          }
        case Online(operation, number, host) =>
          if operation == operationId && number == attempt {
            if host in after.progress.accepted {
              DrainedOnline(after, before, events, operationId, attempt, host);
              after := after.(progress := P.Observe(after.progress, host).0);
            }
            FollowsOnline(was, created, done, host);
          }
        case Other =>
      }
      assert done + [] == done;
      k := k + 1;
    }
    assert events[..|events|] == events;
  }

  /** What the session goes by at the end of a turn: its attempt, when that began, and all reports about it. */
  datatype Moment = Moment(attempt: nat, begun: int, reports: seq<P.Report>)

  /** If the second order goes out in turn `second`, the second attempt begins with the turn after it. */
  function MomentOf(start: int, turns: seq<Turn>, operationId: nat, second: nat, k: nat): Moment
    requires k < |turns|
  {
    if k <= second then Moment(1, start, History(turns, 0, k + 1, operationId, 1))
    else Moment(2, turns[second].now, History(turns, second + 1, k + 1, operationId, 2))
  }

  /** No receipt came within 15 s. */
  predicate Silent(m: Moment, now: int) {
    !HasReceipt(m.reports) && now >= m.begun + 15_000
  }

  /** 60 s have passed since the first receipt. */
  predicate WaitedOut(m: Moment, now: int) {
    HasReceipt(m.reports) && now >= m.reports[P.FirstReceipt(m.reports)].at + 60_000
  }

  /** Turn `k` breaks nothing, finds not all accepted hosts up, and no wait over but that of the first attempt in the
      turn of the second order. */
  ghost predicate Passed(start: int, turns: seq<Turn>, operationId: nat, second: nat, k: nat)
    requires k < |turns|
  {
    var m, now := MomentOf(start, turns, operationId, second, k), turns[k].now;
    && !Breaks(turns[k].events, operationId, m.attempt) && !P.AllUp(m.reports)
    && !Silent(m, now) && (WaitedOut(m, now) ==> k == second)
  }

  /** The order of turn `second` changes nothing for the turns before it. */
  lemma SecondOrdered(start: int, turns: seq<Turn>, operationId: nat, second: nat)
    requires second < |turns|
    requires forall k: nat :: k < second ==> Passed(start, turns, operationId, |turns|, k)
    ensures forall k: nat :: k < second ==> Passed(start, turns, operationId, second, k)
  {
    forall k: nat | k < second ensures Passed(start, turns, operationId, second, k) {
      assert Passed(start, turns, operationId, |turns|, k);
    }
  }

  /** The bound that holds while the session runs, before turn `k`. */
  predicate InTime(start: int, turns: seq<Turn>, k: nat, slack: int, created: int, attempt: nat, current: Attempt)
    requires k <= |turns|
  {
    var now := if k == 0 then start else turns[k - 1].now;
    && created <= now
    && created <= start + (attempt - 1) * (RECEIPT_TIMEOUT + WAKE_WAIT_TIMEOUT + 2 * slack)
    && (if current.receipt then now < current.progress.deadline < created + RECEIPT_TIMEOUT + WAKE_WAIT_TIMEOUT + slack
        else now < created + RECEIPT_TIMEOUT)
  }

  predicate Settled(a: Attempt) {
    && (a.receipt <==> a.progress.startedAt.Some?)
    && (a.receipt ==> a.progress.deadline == a.progress.startedAt.value + WAKE_WAIT_TIMEOUT)
  }

  lemma TurnInTime(start: int, turns: seq<Turn>, k: nat, slack: int, created: int, attempt: nat, was: Attempt,
                   current: Attempt)
    requires k < |turns| && slack >= 0 && 1 <= attempt <= 2
    requires Settled(was) && Settled(current) && StartFrom(current.progress, was.progress, turns[k].events)
    requires Paced(start, turns, slack) && InTime(start, turns, k, slack, created, attempt, was)
    ensures current.receipt && turns[k].now >= current.progress.deadline && attempt == 1 ==>
              InTime(start, turns, k + 1, slack, turns[k].now, 2, Attempt(P.Begin(turns[k].now), false, current.ticket))
    ensures turns[k].now < (if current.receipt then current.progress.deadline else created + RECEIPT_TIMEOUT) ==>
              InTime(start, turns, k + 1, slack, created, attempt, current)
  {
    assert TurnPaced(start, turns, k, slack);
  }

  lemma StartInTime(start: int, turns: seq<Turn>, slack: int)
    ensures InTime(start, turns, 0, slack, start, 1, Attempt(P.Begin(start), false, None))
  {
  }

  lemma InTimeAtEnd(start: int, turns: seq<Turn>, slack: int, created: int, attempt: nat, current: Attempt)
    requires slack >= 0 && turns != [] && 1 <= attempt <= 2
    requires InTime(start, turns, |turns|, slack, created, attempt, current)
    ensures turns[|turns| - 1].now < start + 2 * (RECEIPT_TIMEOUT + WAKE_WAIT_TIMEOUT) + 3 * slack
  {
  }

  /** The turn after the ones that are in time is at most one delay later. */
  lemma EndInTime(start: int, turns: seq<Turn>, k: nat, slack: int, created: int, attempt: nat, current: Attempt)
    requires slack >= 0 && k < |turns| && 1 <= attempt <= 2
    requires Paced(start, turns, slack) && InTime(start, turns, k, slack, created, attempt, current)
    ensures turns[k].now < start + 2 * (RECEIPT_TIMEOUT + WAKE_WAIT_TIMEOUT) + 4 * slack
  {
    assert TurnPaced(start, turns, k, slack);
  }

  lemma TurnTicket(turns: seq<Turn>, k: nat, operationId: nat)
    ensures TicketBefore(turns, 0, operationId) == None
    ensures k < |turns| ==>
              TicketBefore(turns, k + 1, operationId) ==
              Newer(LastTicket(turns[k].events, operationId, 1), TicketBefore(turns, k, operationId))
  {
    if k < |turns| {
      LastTicketAppend(Events(turns, 0, k), turns[k].events, operationId, 1);
    }
  }

  lemma FreshAttempt(created: int, ticket: Option<nat>)
    ensures Follows(Attempt(P.Begin(created), false, ticket), created, [])
  {
  }

  lemma AttemptView(a: Attempt, created: int, h: seq<P.Report>, targets: seq<Text>)
    requires Follows(a, created, h)
    ensures Settled(a) && a.progress == P.After(created, h) && (a.receipt <==> HasReceipt(h))
    ensures a.receipt ==> a.progress.deadline == h[P.FirstReceipt(h)].at + 60_000
    ensures P.OutcomeOf(a.progress, targets).Complete? <==> P.AllUp(h) && P.TargetsUp(h, targets)
    ensures P.OutcomeOf(a.progress, targets).Partial? <==> P.AllUp(h) && !P.TargetsUp(h, targets)
  {
    hide P.OutcomeOf, P.AllUp, P.TargetsUp;
    P.WaitStartsAtFirstReceipt(created, h);
    P.OutcomeOfHistory(created, h, targets);
  }

  /** The whole session over the turns it gets. `live` says whether the client actor takes the second order.
      It returns the orders it sent, the turn in which it sent the second one and the turn in which it ended (or
      the number of turns). */
  method RunWakeSession(targets: seq<Text>, catalogVersion: nat, operationId: nat, bootNonce: nat,
                        start: int, turns: seq<Turn>, live: bool, ghost slack: int)
    returns (verdict: Verdict, orders: seq<WakeCommand>, second: nat, end: nat)
    requires slack >= 0
    ensures second <= |turns| && end <= |turns| && (verdict.Running? <==> end == |turns|)
    // success, exactly: every accepted host and every target is up, and nothing broke the attempt before
    ensures verdict.Success? <==>
              && end < |turns|
              && var m := MomentOf(start, turns, operationId, second, end);
                 !Breaks(turns[end].events, operationId, m.attempt) && P.AllUp(m.reports)
                 && P.TargetsUp(m.reports, targets)
    // failure, exactly
    ensures verdict.Failure? <==>
              && end < |turns|
              && var m, now := MomentOf(start, turns, operationId, second, end), turns[end].now;
                 || Breaks(turns[end].events, operationId, m.attempt)
                 || (P.AllUp(m.reports) && !P.TargetsUp(m.reports, targets))
                 || (!P.AllUp(m.reports) && Silent(m, now))
                 || (!P.AllUp(m.reports) && WaitedOut(m, now) && (m.attempt == 2 || !live))
    // no earlier turn met any of these conditions
    ensures forall k: nat :: k < end ==> Passed(start, turns, operationId, second, k)
    // at most two orders, the second for the ticket of the last receipt and after the full local wait
    ensures |orders| == (if second == |turns| then 1 else 2)
    ensures orders[0] == WakeCommand(targets, catalogVersion, operationId, bootNonce, 1, None)
    ensures second < |turns| ==>
              && second < end && live
              && WaitedOut(MomentOf(start, turns, operationId, second, second), turns[second].now)
              && TicketBefore(turns, second + 1, operationId).Some?
              && orders[1] == WakeCommand(targets, catalogVersion, operationId, bootNonce, 2,
                                          TicketBefore(turns, second + 1, operationId))
    // the session ends in time
    ensures verdict.Running? && turns != [] && Paced(start, turns, slack) ==>
              turns[|turns| - 1].now < start + 2 * (RECEIPT_TIMEOUT + WAKE_WAIT_TIMEOUT) + 3 * slack
    ensures !verdict.Running? && Paced(start, turns, slack) ==>
              turns[end].now < start + 2 * (RECEIPT_TIMEOUT + WAKE_WAIT_TIMEOUT) + 4 * slack
  {
    hide Follows, InTime, Settled, StartFrom, LastTicket, TicketBefore, Paced, HasReceipt, Breaks;
    hide P.After, P.OutcomeOf, P.AllUp, P.TargetsUp;
    FreshAttempt(start, None);
    TurnTicket(turns, 0, operationId);
    orders := [WakeCommand(targets, catalogVersion, operationId, bootNonce, 1, None)];
    var attempt := 1;
    second := |turns|;
    var current := Attempt(P.Begin(start), false, None);
    var receiptDeadline := start + RECEIPT_TIMEOUT;
    ghost var from: nat, created := 0, start;
    end := 0;
    assert InTime(start, turns, 0, slack, start, 1, current) by { StartInTime(start, turns, slack); }
    while end < |turns|
      invariant end <= |turns| && from <= end
      invariant attempt == 1 ==> second == |turns| && from == 0 && created == start
      invariant attempt == 2 ==> second < |turns| && from == second + 1 && created == turns[second].now
      invariant attempt == 1 || attempt == 2
      invariant |orders| == (if second == |turns| then 1 else 2)
      invariant orders[0] == WakeCommand(targets, catalogVersion, operationId, bootNonce, 1, None)
      invariant second < |turns| ==>
                  && second < end && live
                  && WaitedOut(MomentOf(start, turns, operationId, second, second), turns[second].now)
                  && TicketBefore(turns, second + 1, operationId).Some?
                  && orders[1] == WakeCommand(targets, catalogVersion, operationId, bootNonce, 2,
                                              TicketBefore(turns, second + 1, operationId))
      invariant forall k: nat :: k < end ==> Passed(start, turns, operationId, second, k)
      invariant Follows(current, created, History(turns, from, end, operationId, attempt))
      invariant current.receipt ==> current.ticket.Some?
      invariant attempt == 1 ==> current.ticket == TicketBefore(turns, end, operationId)
      invariant receiptDeadline == created + RECEIPT_TIMEOUT
      invariant Paced(start, turns, slack) ==> InTime(start, turns, end, slack, created, attempt, current)
    {
      var turn := turns[end];
      ghost var was := current;
      if Paced(start, turns, slack) {
        EndInTime(start, turns, end, slack, created, attempt, current);
      }
      var failed;
      ghost var known := History(turns, from, end, operationId, attempt);
      current, failed := Drain(turn.events, operationId, attempt, current, created, known);
      assert MomentOf(start, turns, operationId, second, end) ==
             Moment(attempt, created, History(turns, from, end + 1, operationId, attempt));
      if failed { return Failure, orders, second, end; }
      AttemptView(was, created, History(turns, from, end, operationId, attempt), targets);
      AttemptView(current, created, History(turns, from, end + 1, operationId, attempt), targets);
      if Paced(start, turns, slack) { TurnInTime(start, turns, end, slack, created, attempt, was, current); }
      if attempt == 1 { TurnTicket(turns, end, operationId); }
      match P.OutcomeOf(current.progress, targets) {
        case Complete =>
          return Success, orders, second, end;
        case Partial => return Failure, orders, second, end;
        case Rejected =>
        case Waiting =>
      }
      if !current.receipt && turn.now >= receiptDeadline { return Failure, orders, second, end; }
      if current.receipt && turn.now >= current.progress.deadline {
        if attempt == 1 {
          if current.ticket.None? || !live { return Failure, orders, second, end; }
          SecondOrdered(start, turns, operationId, end);
          FreshAttempt(turn.now, current.ticket);
          orders := orders + [WakeCommand(targets, catalogVersion, operationId, bootNonce, 2, current.ticket)];
          attempt, second := 2, end;
          current := Attempt(P.Begin(turn.now), false, current.ticket);
          receiptDeadline := turn.now + RECEIPT_TIMEOUT;
          from, created := end + 1, turn.now;
        } else {
          return Failure, orders, second, end;
        }
      }
      end := end + 1;
    }
    if Paced(start, turns, slack) && turns != [] { InTimeAtEnd(start, turns, slack, created, attempt, current); }
    return Running, orders, second, end;
  }
}
