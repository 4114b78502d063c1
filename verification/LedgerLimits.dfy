// Where the promises of the ledger end: the exact condition for a second attempt, and runs that meet the bounds.

module LedgerLimits {
  import opened Common
  import opened Timing
  import opened Protocol
  import opened LedgerSpec
  import opened LedgerInvariant
  import opened LedgerRuns

  /** `complete`, and a status reservation given back, are the operations that do not prune first. */
  predicate Prunes(op: Op) { !op.Complete? && !op.Cancel? }

  /** Event `m` repeats the first attempt of `key` and is answered from the cache. */
  predicate Recovers(run: seq<Event>, m: nat, key: OperationKey) {
    m < |run| && run[m].step.op.Wake1? && run[m].step.op.key == key && IsCached(run[m].answer)
  }

  /** No ledger operation looked at the index between the lapse of the lease of reservation `o` and event `i`. */
  predicate NoPruneAfterLapse(run: seq<Event>, o: nat, i: nat)
    requires o < |run|
  {
    forall k: nat :: o < k < i && k < |run| && Prunes(run[k].step.op) ==> run[k].step.now < run[o].step.now + RETRY_TTL
  }

  /** The entry waits with its ticket indexed, whatever the time. */
  predicate Waits(s: State, key: OperationKey, request: WakeRequest, ticket: nat, lease: int) {
    LeaseHeld(s, key, request, ticket, lease, false, lease - 1)
  }

  lemma OpenLeaseWaits(s: State, key: OperationKey, request: WakeRequest, ticket: nat, lease: int, now: int)
    requires LeaseHeld(s, key, request, ticket, lease, false, now) && now < lease
    ensures Waits(s, key, request, ticket, lease)
  {
  }

  lemma WaitsStep(s: State, step: Step, key: OperationKey, request: WakeRequest, ticket: nat, lease: int, now: int)
    requires Invariant(s, now) && now <= step.now && Allowed(s, step.op)
    requires Waits(s, key, request, ticket, lease) && lease <= step.now + RETRY_TTL
    requires Prunes(step.op) ==> step.now < lease
    requires OwnTicket(s, key, ticket) && (step.op.Wake1? ==> step.op.draw != ticket)
    requires !(step.op.Wake2? && step.op.key == key && Grants(AnswerTo(s, step)))
    ensures Waits(Apply(s, step), key, request, ticket, lease)
  {
    if Prunes(step.op) {
      hide Apply, AnswerTo, Invariant;
      LeaseStep(s, step, key, request, ticket, lease, false, now);
    } else {
      assert Sound(s.entries[key], now);
    }
  }

  /** In a reachable state no other entry has the ticket of reservation `o`. */
  lemma TicketIsItsOwn(run: seq<Event>, o: nat, j: nat, key: OperationKey)
    requires Valid(run) && o < j < |run| && Granted1(run, o, key)
    ensures OwnTicket(run[j].before, key, run[o].step.op.draw)
  {
    hide Apply, AnswerTo;
    assert Linked(run, j);
    var s := run[j].before;
    forall k | k in s.entries && s.entries[k].wake.Some? && s.entries[k].wake.value.ticket == run[o].step.op.draw
      ensures k == key
    {
      var n, _ := Origin(run, j - 1, k);
      assert n == o;
    }
  }

  lemma {:induction false} WaitsAlong(run: seq<Event>, o: nat, j: nat, key: OperationKey)
    requires Valid(run) && o <= j < |run| && Granted1(run, o, key) && NoPruneAfterLapse(run, o, j + 1)
    requires forall m: nat :: o < m <= j ==> !Granted2(run, m, key)
    ensures Waits(run[j].after, key, run[o].step.op.request, run[o].step.op.draw, run[o].step.now + RETRY_TTL)
  {
    hide Apply, AnswerTo, LeaseHeld;
    assert Linked(run, j);
    if o == j {
      ReservationOpensLease(run[o].before, run[o].step);
      OpenLeaseWaits(run[o].after, key, run[o].step.op.request, run[o].step.op.draw, run[o].step.now + RETRY_TTL,
                     run[o].step.now);
    } else {
      WaitsAlong(run, o, j - 1, key);
      InvariantHolds(run, j - 1);
      TicketIsItsOwn(run, o, j, key);
      assert run[o].step.now <= run[j].step.now && !Granted2(run, j, key);
      WaitsStep(run[j].before, run[j].step, key, run[o].step.op.request, run[o].step.op.draw,
                run[o].step.now + RETRY_TTL, run[j - 1].step.now);
    }
  }

  /** A completion opens a new lease for a ticket that still is indexed, even if its first lease has lapsed. */
  lemma LateCompletionOpensLease(s: State, step: Step, request: WakeRequest, ticket: nat, lease: int, now: int)
    requires Invariant(s, now) && now <= step.now && step.op.Complete?
    requires Waits(s, step.op.key, request, ticket, lease)
    ensures LeaseHeld(Apply(s, step), step.op.key, request, ticket, step.now + RETRY_TTL, true, step.now)
  {
    assert Sound(s.entries[step.op.key], now);
  }

  lemma IndexedTicketIsRedeemed(run: seq<Event>, o: nat, i: nat, j: nat, key: OperationKey)
    requires Valid(run) && o < i < j < |run|
    requires Granted1(run, o, key)
    requires run[i].step.op.Complete? && run[i].step.op.key == key
    requires run[j].step.op.Wake2? && run[j].step.op.key == key
    requires run[j].step.op.request == run[o].step.op.request && run[j].step.op.ticket == run[o].step.op.draw
    requires run[j].step.now < run[i].step.now + RETRY_TTL
    requires forall m: nat :: o < m < j ==> !Granted2(run, m, key)
    requires NoPruneAfterLapse(run, o, i)
    ensures Granted2(run, j, key)
  {
    hide Apply, AnswerTo, LeaseHeld;
    var request, ticket := run[o].step.op.request, run[o].step.op.draw;
    assert Linked(run, i) && Linked(run, j);
    WaitsAlong(run, o, i - 1, key);
    InvariantHolds(run, i - 1);
    LateCompletionOpensLease(run[i].before, run[i].step, request, ticket, run[o].step.now + RETRY_TTL,
                             run[i - 1].step.now);
    LeaseAlong(run, o, i, j - 1, key, run[i].step.now + RETRY_TTL, true);
    InvariantHolds(run, j - 1);
    OpenLeaseIsRedeemed(run[j].before, run[j].step, ticket, run[i].step.now + RETRY_TTL, run[j - 1].step.now);
  }

  /** Until the first completion the lease of the reservation does not move: every repetition is answered Busy. */
  predicate Untouched(s: State, key: OperationKey, ticket: nat, lease: int) {
    key in s.entries && s.entries[key].wake.Some? && s.entries[key].wake.value.ticket == ticket ==>
      s.entries[key].pending && s.entries[key].wake.value.ticketExpires <= lease
  }

  lemma UntouchedStep(s: State, step: Step, key: OperationKey, ticket: nat, lease: int)
    requires Untouched(s, key, ticket, lease) && !(step.op.Complete? && step.op.key == key)
    requires step.op.Wake1? ==> step.op.draw != ticket
    ensures Untouched(Apply(s, step), key, ticket, lease)
  {
  }

  lemma StartsUntouched(s: State, step: Step)
    requires step.op.Wake1? && Grants(AnswerTo(s, step))
    ensures Untouched(Apply(s, step), step.op.key, step.op.draw, step.now + RETRY_TTL)
  {
  }

  lemma {:induction false} UntouchedAlong(run: seq<Event>, o: nat, j: nat, key: OperationKey)
    requires Valid(run) && o <= j < |run| && Granted1(run, o, key)
    requires forall m: nat :: o < m <= j ==> !Completes(run, m, key)
    ensures Untouched(run[j].after, key, run[o].step.op.draw, run[o].step.now + RETRY_TTL)
  {
    hide Apply, AnswerTo, Untouched;
    assert Linked(run, j);
    if o == j {
      StartsUntouched(run[o].before, run[o].step);
    } else {
      UntouchedAlong(run, o, j - 1, key);
      assert !Completes(run, j, key);
      UntouchedStep(run[j].before, run[j].step, key, run[o].step.op.draw, run[o].step.now + RETRY_TTL);
    }
  }

  predicate IsRecovery(step: Step, answer: Answer, key: OperationKey) {
    step.op.Wake1? && step.op.key == key && IsCached(answer)
  }

  lemma LosesTicket(s: State, step: Step, key: OperationKey, ticket: nat, lease: int, now: int)
    requires Invariant(s, now) && OwnTicket(s, key, ticket)
    requires ticket !in s.tickets || (Untouched(s, key, ticket, lease) && Prunes(step.op) && step.now >= lease)
    requires !IsRecovery(step, AnswerTo(s, step), key)
    requires step.op.Wake1? ==> step.op.draw != ticket
    ensures ticket !in Apply(s, step).tickets
  {
    var p := Prune(s, step.now);
    assert ticket in s.tickets ==> Indexed(s, ticket);
    assert Prunes(step.op) ==> ticket !in p.tickets;
  }

  /** A ticket pruned from the index before its completion stays out of it, unless a recovery puts it back. */
  lemma {:induction false} LostAlong(run: seq<Event>, o: nat, k: nat, j: nat, key: OperationKey)
    requires Valid(run) && o < k <= j < |run| && Granted1(run, o, key)
    requires Prunes(run[k].step.op) && run[k].step.now >= run[o].step.now + RETRY_TTL
    requires Untouched(run[k].before, key, run[o].step.op.draw, run[o].step.now + RETRY_TTL)
    requires forall m: nat :: k <= m <= j ==> !Recovers(run, m, key)
    ensures run[o].step.op.draw !in run[j].after.tickets
  {
    hide Apply, AnswerTo, Untouched, IsCached;
    assert Linked(run, j) && !Recovers(run, j, key);
    if k == j {
    } else {
      LostAlong(run, o, k, j - 1, key);
    }
    InvariantHolds(run, j - 1);
    TicketIsItsOwn(run, o, j, key);
    LosesTicket(run[j].before, run[j].step, key, run[o].step.op.draw, run[o].step.now + RETRY_TTL, run[j - 1].step.now);
  }

  lemma UnindexedTicketIsRefused(s: State, step: Step)
    requires step.op.Wake2? && step.op.ticket !in s.tickets
    ensures !Grants(AnswerTo(s, step))
  {
  }

  predicate Completes(run: seq<Event>, m: nat, key: OperationKey) {
    m < |run| && run[m].step.op.Complete? && run[m].step.op.key == key
  }

  /**
   * Retry availability, exactly. Attempt 1 was reserved by event `o` and first completed by event `i`. A
   * matching second attempt that arrives within RETRY_TTL of the completion, with no recovery in between,
   * is granted if and only if no ledger operation pruned the index after the first lease lapsed and before
   * the completion. A completion within RETRY_TTL of the reservation always is in time.
   */
  lemma RetryAvailableExactly(run: seq<Event>, o: nat, i: nat, j: nat, key: OperationKey)
    requires Valid(run) && o < i < j < |run|
    requires Granted1(run, o, key) && Completes(run, i, key)
    requires forall m: nat :: o < m < i ==> !Completes(run, m, key)
    requires run[j].step.op.Wake2? && run[j].step.op.key == key
    requires run[j].step.op.request == run[o].step.op.request && run[j].step.op.ticket == run[o].step.op.draw
    requires run[j].step.now < run[i].step.now + RETRY_TTL
    requires forall m: nat :: o < m < j ==> !Recovers(run, m, key) && !Granted2(run, m, key)
    ensures Granted2(run, j, key) <==> NoPruneAfterLapse(run, o, i)
    ensures run[i].step.now < run[o].step.now + RETRY_TTL ==> NoPruneAfterLapse(run, o, i)
  {
    hide Apply, AnswerTo, Untouched;
    if NoPruneAfterLapse(run, o, i) {
      IndexedTicketIsRedeemed(run, o, i, j, key);
    } else {
      var k: nat :| o < k < i && k < |run| && Prunes(run[k].step.op) && run[k].step.now >= run[o].step.now + RETRY_TTL;
      UntouchedAlong(run, o, k - 1, key);
      assert Linked(run, k) && Linked(run, j);
      LostAlong(run, o, k, j - 1, key);
      UnindexedTicketIsRefused(run[j].before, run[j].step);
    }
  }

  // ----- Which reservation a completion answers for -----

  /** Since event `o` no other attempt 1 of `key` was reserved, up to and including event `j`. */
  predicate StillReserved(run: seq<Event>, o: nat, j: nat, key: OperationKey) {
    forall m: nat :: o < m <= j ==> !Granted1(run, m, key)
  }

  /** Event `o` reserves attempt 1 or 2 of `key`. */
  predicate Reserves(run: seq<Event>, o: nat, key: OperationKey) {
    Granted1(run, o, key) || Granted2(run, o, key)
  }

  lemma GrantedTicket(s: State, step: Step)
    requires Grants(AnswerTo(s, step))
    ensures step.op.Wake1? || step.op.Wake2?
    ensures AnswerTo(s, step).wake.ticket == if step.op.Wake1? then step.op.draw else step.op.ticket
    ensures step.op.key in Apply(s, step).entries && Apply(s, step).entries[step.op.key].wake.Some?
    ensures Apply(s, step).entries[step.op.key].wake.value.ticket == AnswerTo(s, step).wake.ticket
  {
  }

  /** The ticket of a reservation is drawn by no later event. */
  lemma LaterDrawsDiffer(run: seq<Event>, o: nat, m: nat, key: OperationKey)
    requires Valid(run) && Reserves(run, o, key) && o < m < |run| && run[m].step.op.Wake1?
    ensures run[m].step.op.draw != run[o].answer.wake.ticket
  {
    hide Apply, AnswerTo;
    assert Linked(run, o);
    GrantedTicket(run[o].before, run[o].step);
    if Granted2(run, o, key) {
      var minted, _ := SecondAttemptNeedsItsOwnTicket(run, o, key);
      assert minted < o;
    }
  }

  lemma {:induction false} TicketFollowsTheGrant(run: seq<Event>, o: nat, j: nat, key: OperationKey)
    requires Valid(run) && o <= j < |run| && Reserves(run, o, key)
    requires key in run[j].after.entries && run[j].after.entries[key].wake.Some?
    ensures run[j].after.entries[key].wake.value.ticket == run[o].answer.wake.ticket <==> StillReserved(run, o, j, key)
  {
    hide Apply, AnswerTo;
    assert Linked(run, j);
    if o == j {
      GrantedTicket(run[o].before, run[o].step);
    } else if Granted1(run, j, key) {
      GrantedTicket(run[j].before, run[j].step);
      LaterDrawsDiffer(run, o, j, key);
    } else {
      EntryStep(run[j].before, run[j].step, key);
      TicketFollowsTheGrant(run, o, j - 1, key);
    }
  }

  lemma CompletionKeepsTicket(s: State, step: Step)
    requires step.op.Complete? && step.op.key in s.entries && s.entries[step.op.key].wake.Some?
    ensures step.op.key in Apply(s, step).entries
    ensures var e, f := s.entries[step.op.key], Apply(s, step).entries[step.op.key];
            f.response == Some(step.op.response) && f.wake.Some? && f.wake.value.ticket == e.wake.value.ticket
  {
  }

  /**
   * `complete` does not ask which reservation it completes. The worker of reservation `o`, of either attempt,
   * that completes at event `i` leaves its receipt with an entry of its own ticket exactly when attempt 1 of
   * the key was not reserved again in between.
   */
  lemma CompletionAnswersForItself(run: seq<Event>, o: nat, i: nat, key: OperationKey)
    requires Valid(run) && o < i && Reserves(run, o, key) && Completes(run, i, key)
    requires key in run[i].before.entries && run[i].before.entries[key].wake.Some?
    ensures key in run[i].after.entries && run[i].after.entries[key].wake.Some?
    ensures run[i].after.entries[key].response == Some(run[i].step.op.response)
    ensures var ticket := if Granted1(run, o, key) then run[o].step.op.draw else run[o].step.op.ticket;
            run[i].after.entries[key].wake.value.ticket == ticket <==>
            forall m: nat :: o < m < i ==> !Granted1(run, m, key)
  {
    hide Apply, AnswerTo;
    assert Linked(run, i) && Linked(run, o);
    GrantedTicket(run[o].before, run[o].step);
    CompletionKeepsTicket(run[i].before, run[i].step);
    TicketFollowsTheGrant(run, o, i - 1, key);
  }

  // ----- When an abandoned reservation is granted again -----

  /** Event `m` starts or completes work of `key`. */
  predicate Moves(run: seq<Event>, m: nat, key: OperationKey) {
    && m < |run| && run[m].step.op.key == key
    && (run[m].step.op.Complete? || Grants(run[m].answer) || run[m].answer == Answered(New))
  }

  /** The entry of the key, if there still is one, waits for its worker and lapses at `until`. */
  predicate Abandoned(s: State, key: OperationKey, until: int) {
    key in s.entries ==> s.entries[key].wake.Some? && s.entries[key].pending && s.entries[key].expires == until
  }

  lemma AbandonedStep(s: State, step: Step, key: OperationKey, until: int)
    requires Abandoned(s, key, until)
    requires step.op.key == key ==>
               !step.op.Complete? && !Grants(AnswerTo(s, step)) && AnswerTo(s, step) != Answered(New)
    ensures Abandoned(Apply(s, step), key, until)
  {
  }

  lemma GrantStartsAbandoned(s: State, step: Step)
    requires Grants(AnswerTo(s, step))
    ensures Abandoned(Apply(s, step), step.op.key, step.now + PENDING_LEDGER_TTL)
  {
  }

  lemma {:induction false} AbandonedAlong(run: seq<Event>, i: nat, j: nat, key: OperationKey)
    requires Valid(run) && i <= j < |run| && Reserves(run, i, key)
    requires forall m: nat :: i < m <= j ==> !Moves(run, m, key)
    ensures Abandoned(run[j].after, key, run[i].step.now + PENDING_LEDGER_TTL)
  {
    hide Apply, AnswerTo, Abandoned;
    assert Linked(run, j);
    if i == j {
      GrantStartsAbandoned(run[i].before, run[i].step);
    } else {
      AbandonedAlong(run, i, j - 1, key);
      assert !Moves(run, j, key);
      AbandonedStep(run[j].before, run[j].step, key, run[i].step.now + PENDING_LEDGER_TTL);
    }
  }

  lemma LapsedKeyIsGranted(s: State, step: Step, until: int)
    requires step.op.Wake1? && Abandoned(s, step.op.key, until) && step.now >= until
    ensures Grants(AnswerTo(s, step)) <==> HasCapacity(Prune(s, step.now), step.op.key.clientKey)
  {
  }

  /**
   * At most once, exactly. A reservation of event `i` whose worker neither completed nor was replaced is
   * reserved again by the first attempt of event `j` if and only if its pending lease is over and the ledger
   * has room. Its hosts may then be sent to again.
   */
  lemma AbandonedReservationIsGrantedExactly(run: seq<Event>, i: nat, j: nat, key: OperationKey)
    requires Valid(run) && i < j < |run| && Reserves(run, i, key)
    requires run[j].step.op.Wake1? && run[j].step.op.key == key
    requires forall m: nat :: i < m < j ==> !Moves(run, m, key)
    ensures Granted1(run, j, key) <==>
            run[j].step.now >= run[i].step.now + PENDING_LEDGER_TTL &&
            HasCapacity(Prune(run[j].before, run[j].step.now), key.clientKey)
  {
    hide Apply, AnswerTo, Abandoned, Prune, HasCapacity;
    assert Linked(run, j);
    AbandonedAlong(run, i, j - 1, key);
    if run[j].step.now >= run[i].step.now + PENDING_LEDGER_TTL {
      LapsedKeyIsGranted(run[j].before, run[j].step, run[i].step.now + PENDING_LEDGER_TTL);
    } else if Granted1(run, j, key) {
      ReservationsAreSeparated(run, i, j, key);
    }
  }

  // ----- Runs that meet the bounds -----

  function Happen(before: State, step: Step): Event {
    Event(step, before, Apply(before, step), AnswerTo(before, step))
  }

  lemma FirstRequestIsGranted(s: State, key: OperationKey, request: WakeRequest, draw: nat, now: int)
    requires s.entries == map[] || (s.entries.Keys == {key} && s.entries[key].expires <= now)
    ensures var e := Happen(s, Step(now, Wake1(key, request, draw, 0)));
            Grants(e.answer) && e.after.entries == map[key := FirstReservation(request, draw, now)]
  {
    assert Prune(s, now).entries == map[];
    assert ClientKeys(map[], key.clientKey) == {};
  }

  /** A witness of `AbandonedReservationIsGrantedExactly`: the bound of `ReservationsAreSeparated` is met. */
  lemma AbandonedReservationIsGrantedAgain(key: OperationKey, request: WakeRequest)
    ensures exists run: seq<Event> :: Valid(run) && |run| == 2 && Granted1(run, 0, key) && Granted1(run, 1, key) &&
                          run[0].step.op.request == run[1].step.op.request == request &&
                          run[1].step.now == run[0].step.now + PENDING_LEDGER_TTL
  {
    hide Apply, AnswerTo;
    var first := Happen(State(map[], map[]), Step(0, Wake1(key, request, 1, 0)));
    var second := Happen(first.after, Step(PENDING_LEDGER_TTL, Wake1(key, request, 2, 0)));
    FirstRequestIsGranted(State(map[], map[]), key, request, 1, 0);
    FirstRequestIsGranted(first.after, key, request, 2, PENDING_LEDGER_TTL);
    var run := [first, second];
    assert Linked(run, 0) && Linked(run, 1);
  }

  /**
   * A witness of `CompletionAnswersForItself`: a worker that finishes after its reservation lapsed and was
   * replaced leaves a receipt whose ticket is not the entry's.
   */
  lemma LateCompletionAnswersForAnother(key: OperationKey, request: WakeRequest, response: ServerEnvelope)
    requires response.event.CommandExecuted? && response.event.retryTicket == 1
    ensures exists run: seq<Event> :: Valid(run) && |run| == 3 && Granted1(run, 0, key) && run[0].step.op.draw == 1 &&
                          Granted1(run, 1, key) && Completes(run, 2, key) && run[2].step.op.response == response &&
                          key in run[2].after.entries && run[2].after.entries[key].response == Some(response) &&
                          run[2].after.entries[key].wake.Some? && run[2].after.entries[key].wake.value.ticket == 2
  {
    hide Apply, AnswerTo;
    var first := Happen(State(map[], map[]), Step(0, Wake1(key, request, 1, 0)));
    var second := Happen(first.after, Step(PENDING_LEDGER_TTL, Wake1(key, request, 2, 0)));
    var third := Happen(second.after, Step(PENDING_LEDGER_TTL, LedgerInvariant.Complete(key, response)));
    FirstRequestIsGranted(State(map[], map[]), key, request, 1, 0);
    FirstRequestIsGranted(first.after, key, request, 2, PENDING_LEDGER_TTL);
    LateCompletion(second.after, key, response);
    var run := [first, second, third];
    assert Linked(run, 0) && Linked(run, 1) && Linked(run, 2);
  }

  lemma LateCompletion(s: State, key: OperationKey, response: ServerEnvelope)
    requires key in s.entries && s.entries[key].wake.Some?
    ensures var e := Happen(s, Step(PENDING_LEDGER_TTL, LedgerInvariant.Complete(key, response)));
            && key in e.after.entries && e.after.entries[key].response == Some(response)
            && e.after.entries[key].wake.Some?
            && e.after.entries[key].wake.value.ticket == s.entries[key].wake.value.ticket
  {
  }
}
