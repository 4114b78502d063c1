// What a repeated request is answered, over runs of the ledger.

module LedgerAnswers {
  import opened Common
  import opened Timing
  import opened Protocol
  import opened LedgerSpec
  import opened LedgerInvariant
  import opened LedgerRuns

  // ----- What one request is answered, by the entries that are alive -----

  predicate Alive(s: State, key: OperationKey, now: int) {
    key in s.entries && s.entries[key].expires > now
  }

  /** Fewer than 4096 entries are alive, and fewer than 256 of them are the client's. */
  predicate Room(s: State, client: nat, now: int) {
    && |set k | k in s.entries && s.entries[k].expires > now| < 4_096
    && |set k | k in s.entries && s.entries[k].expires > now && k.clientKey == client| < 256
  }

  lemma RoomExactly(s: State, client: nat, now: int)
    ensures HasCapacity(Prune(s, now), client) <==> Room(s, client, now)
  {
    var p := Prune(s, now);
    assert p.entries.Keys == set k | k in s.entries && s.entries[k].expires > now;
    assert ClientKeys(p.entries, client) ==
           set k | k in s.entries && s.entries[k].expires > now && k.clientKey == client;
    assert |p.entries| == |p.entries.Keys|;
  }

  /** Every entry but that of `key` is what it was if it was alive, and is gone otherwise. */
  ghost predicate OthersPruned(s: State, t: State, key: OperationKey, now: int) {
    forall k :: k != key ==>
      (k in t.entries <==> Alive(s, k, now)) && (k in t.entries ==> t.entries[k] == s.entries[k])
  }

  /** The operation left its own entry alone. */
  predicate OwnKept(s: State, t: State, key: OperationKey, now: int) {
    (key in t.entries <==> Alive(s, key, now)) && (key in t.entries ==> t.entries[key] == s.entries[key])
  }

  /** A list or status request with a new id is reserved if there is room; otherwise it has to wait. */
  lemma NewRequestIsReserved(s: State, key: OperationKey, digest: Text, now: int)
    requires !Alive(s, key, now)
    ensures var (t, result) := BeginRequest(s, key, digest, now);
            && OthersPruned(s, t, key, now)
            && if Room(s, key.clientKey, now)
               then result == New && key in t.entries &&
                    t.entries[key] == Entry(digest, None, None, true, now + 120_000)
               else result == Busy && key !in t.entries
  {
    hide HasCapacity, Room;
    RoomExactly(s, key.clientKey, now);
  }

  /** The reservation of attempt 1, with a retry lease of 90 s and a pending lease of 2 min. */
  predicate IsFirstReservation(e: Entry, request: WakeRequest, ticket: nat, now: int) {
    && e.digest == request.digest && e.pending && e.response == None && e.expires == now + 120_000
    && e.wake == Some(WakeMeta(request.catalogVersion, request.hostIds, request.bootNonce, ticket, now + 90_000,
                               false, 1))
  }

  /** Attempt 1 with a new id is granted the drawn ticket if there is room; otherwise it has to wait. */
  lemma NewWakeIsReserved(s: State, key: OperationKey, request: WakeRequest, draw: nat, now: int, wall: nat)
    requires !Alive(s, key, now)
    ensures var (t, result) := BeginWake1(s, key, request, draw, now, wall);
            && OthersPruned(s, t, key, now)
            && if Room(s, key.clientKey, now)
               then result == WakeNew(draw) && key in t.entries && draw in t.tickets && t.tickets[draw] == key &&
                    IsFirstReservation(t.entries[key], request, draw, now)
               else result == WakeBusy && key !in t.entries
  {
    hide HasCapacity, Room;
    RoomExactly(s, key.clientKey, now);
  }

  /** Attempt 2 of an operation that the ledger does not know is never dispatched. */
  lemma UnknownSecondAttemptIsReplayed(s: State, key: OperationKey, request: WakeRequest, ticket: nat, now: int,
                                       wall: nat)
    requires !Alive(s, key, now)
    ensures var (t, result) := BeginWake2(s, key, request, ticket, now, wall);
            result == WakeReplay && OthersPruned(s, t, key, now) && key !in t.entries
  {
  }

  /** Other content under a living id is a conflict, for every kind of request, and changes nothing. */
  lemma OtherContentConflicts(s: State, key: OperationKey, digest: Text, request: WakeRequest, draw: nat, ticket: nat,
                              now: int, wall: nat)
    requires Alive(s, key, now) && digest != s.entries[key].digest && request.digest != s.entries[key].digest
    ensures var (t, result) := BeginRequest(s, key, digest, now);
            result == Conflict && OthersPruned(s, t, key, now) && OwnKept(s, t, key, now)
    ensures var (t, result) := BeginWake1(s, key, request, draw, now, wall);
            result == WakeConflict && OthersPruned(s, t, key, now) && OwnKept(s, t, key, now)
    ensures var (t, result) := BeginWake2(s, key, request, ticket, now, wall);
            result == WakeConflict && OthersPruned(s, t, key, now) && OwnKept(s, t, key, now)
  {
  }

  /** A completed wake operation of this attempt and content, whose entry is alive. */
  predicate Completed(s: State, key: OperationKey, digest: Text, attempt: nat, now: int) {
    && Alive(s, key, now) && s.entries[key].digest == digest && !s.entries[key].pending
    && s.entries[key].wake.Some? && s.entries[key].wake.value.attempt == attempt
    && s.entries[key].response.Some? && s.entries[key].response.value.event.CommandExecuted?
  }

  /** The stored receipt, with a full minute of observation from now. */
  predicate IsRecovered(receipt: ServerEnvelope, stored: ServerEnvelope, wall: nat) {
    && stored.event.CommandExecuted? && receipt.event.CommandExecuted?
    && receipt.requestId == stored.requestId && receipt.headers == stored.headers
    && receipt.event.operationId == stored.event.operationId && receipt.event.attempt == stored.event.attempt
    && receipt.event.retryTicket == stored.event.retryTicket && receipt.event.results == stored.event.results
    && receipt.event.deadlineMs == if wall + 60_000 <= U64_MAX then wall + 60_000 else U64_MAX
  }

  /** Nothing of the entry changed but the end of its retry lease, which is 90 s from now. */
  predicate IsRenewed(e: Entry, f: Entry, now: int) {
    && e.wake.Some? && f.wake.Some? && f.wake.value.ticketExpires == now + 90_000
    && f == e.(wake := Some(e.wake.value.(ticketExpires := now + 90_000)))
  }

  /**
   * A repeated attempt 1 that is completed is answered with its receipt, for another minute of observation and
   * another 90 s of retry lease, and its ticket is indexed again, exactly if the tombstone outlives that lease.
   */
  lemma FirstAttemptIsRecoveredExactly(s: State, key: OperationKey, request: WakeRequest, draw: nat, now: int,
                                       wall: nat)
    requires Completed(s, key, request.digest, 1, now)
    ensures var (t, result) := BeginWake1(s, key, request, draw, now, wall);
            && OthersPruned(s, t, key, now)
            && if s.entries[key].expires >= now + 90_000
               then result.WakeCached? && IsRecovered(result.receipt, s.entries[key].response.value, wall) &&
                    key in t.entries && IsRenewed(s.entries[key], t.entries[key], now) &&
                    s.entries[key].wake.value.ticket in t.tickets && t.tickets[s.entries[key].wake.value.ticket] == key
               else result == WakeReplay && OwnKept(s, t, key, now)
  {
  }

  /** The same for attempt 2 under its own ticket. */
  lemma SecondAttemptIsRecoveredExactly(s: State, key: OperationKey, request: WakeRequest, now: int, wall: nat)
    requires Completed(s, key, request.digest, 2, now)
    ensures var (t, result) := BeginWake2(s, key, request, s.entries[key].wake.value.ticket, now, wall);
            && OthersPruned(s, t, key, now)
            && if s.entries[key].expires >= now + 90_000
               then result.WakeCached? && IsRecovered(result.receipt, s.entries[key].response.value, wall) &&
                    key in t.entries && IsRenewed(s.entries[key], t.entries[key], now)
               else result == WakeReplay && OwnKept(s, t, key, now)
  {
  }

  /** An attempt that ended in an error is answered with that error again, as it is, while the tombstone outlives a
      retry lease, and its entry stays as it is. */
  lemma ErrorsAreRepeated(s: State, key: OperationKey, request: WakeRequest, draw: nat, now: int, wall: nat)
    requires Alive(s, key, now) && s.entries[key].digest == request.digest && !s.entries[key].pending
    requires s.entries[key].wake.Some? && s.entries[key].response.Some?
    requires !s.entries[key].response.value.event.CommandExecuted? && s.entries[key].expires >= now + 90_000
    ensures var (t, result) := BeginWake1(s, key, request, draw, now, wall);
            s.entries[key].wake.value.attempt == 1 ==>
              && result == WakeCached(s.entries[key].response.value)
              && OthersPruned(s, t, key, now) && OwnKept(s, t, key, now)
    ensures var (t, result) := BeginWake2(s, key, request, s.entries[key].wake.value.ticket, now, wall);
            s.entries[key].wake.value.attempt == 2 ==>
              && result == WakeCached(s.entries[key].response.value)
              && OthersPruned(s, t, key, now) && OwnKept(s, t, key, now)
  {
  }

  /** Attempt 2 of a completed attempt 1 is granted exactly for the indexed ticket of that attempt, an equal request
      and an open lease; it then reserves the entry anew, for 2 min. Otherwise it is a replay and changes nothing. */
  lemma RedemptionExactly(s: State, key: OperationKey, request: WakeRequest, ticket: nat, now: int, wall: nat)
    requires Completed(s, key, request.digest, 1, now)
    ensures var (t, result) := BeginWake2(s, key, request, ticket, now, wall);
            var wake := s.entries[key].wake.value;
            && OthersPruned(s, t, key, now)
            && if ticket in s.tickets && s.tickets[ticket] == key && ticket == wake.ticket &&
                  wake.ticketExpires > now && !wake.ticketUsed && request.catalogVersion == wake.catalogVersion &&
                  request.hostIds == wake.hostIds && request.bootNonce == wake.bootNonce
               then result == WakeNew(ticket) && key in t.entries &&
                    t.entries[key] == Entry(request.digest, Some(wake.(ticketUsed := true, attempt := 2)),
                                            None, true, now + 120_000)
               else result == WakeReplay && OwnKept(s, t, key, now)
  {
  }

  /** Once attempt 2 began, attempt 1 and foreign tickets are replays and change nothing. */
  lemma OldAttemptsAreReplayed(s: State, key: OperationKey, request: WakeRequest, draw: nat, ticket: nat, now: int,
                               wall: nat)
    requires Completed(s, key, request.digest, 2, now) && ticket != s.entries[key].wake.value.ticket
    ensures var (t, result) := BeginWake1(s, key, request, draw, now, wall);
            result == WakeReplay && OthersPruned(s, t, key, now) && OwnKept(s, t, key, now)
    ensures var (t, result) := BeginWake2(s, key, request, ticket, now, wall);
            result == WakeReplay && OthersPruned(s, t, key, now) && OwnKept(s, t, key, now)
  {
  }

  /** A completion stores the answer for 15 minutes, and opens the retry lease of an attempt 1 for 90 s; nothing else
      changes, and nothing at all if the reservation has lapsed and was pruned. */
  lemma CompletionExactly(s: State, key: OperationKey, response: ServerEnvelope, now: int)
    ensures var t := LedgerSpec.Complete(s, key, response, now);
            if key !in s.entries then t == s
            else
              var e := s.entries[key];
              && t.tickets == s.tickets && t.entries.Keys == s.entries.Keys && t.entries - {key} == s.entries - {key}
              && t.entries[key].digest == e.digest && !t.entries[key].pending
              && t.entries[key].response == Some(response) && t.entries[key].expires == now + 900_000
              && t.entries[key].wake ==
                 if e.wake.Some? && e.wake.value.attempt == 1 && !e.wake.value.ticketUsed
                 then Some(e.wake.value.(ticketExpires := now + 90_000)) else e.wake
  {
  }

  // ----- Repeated requests over runs -----

  /** Event `m` completes the work of `key` or gives its reservation back. */
  predicate Settles(run: seq<Event>, m: nat, key: OperationKey) {
    m < |run| && (run[m].step.op.Complete? || run[m].step.op.Cancel?) && run[m].step.op.key == key
  }

  /** Neither reserved for another attempt nor renewed: a list or status entry, or one that is still pending. */
  predicate Fixed(entry: Entry) { entry.wake.None? || entry.pending }

  lemma FixedStep(s: State, step: Step, key: OperationKey)
    requires key in s.entries && Fixed(s.entries[key]) && step.now < s.entries[key].expires
    requires !((step.op.Complete? || step.op.Cancel?) && step.op.key == key)
    ensures key in Apply(s, step).entries && Apply(s, step).entries[key] == s.entries[key]
  {
  }

  lemma {:induction false} FixedAlong(run: seq<Event>, i: nat, j: nat, key: OperationKey)
    requires Valid(run) && i <= j < |run|
    requires key in run[i].after.entries && Fixed(run[i].after.entries[key])
    requires forall m: nat :: i < m <= j ==> !Settles(run, m, key)
    requires i < j ==> run[j].step.now < run[i].after.entries[key].expires
    ensures key in run[j].after.entries && run[j].after.entries[key] == run[i].after.entries[key]
  {
    hide Apply, AnswerTo;
    if i == j {
    } else {
      assert run[j - 1].step.now <= run[j].step.now && Linked(run, j) && !Settles(run, j, key);
      FixedAlong(run, i, j - 1, key);
      FixedStep(run[j].before, run[j].step, key);
    }
  }

  function DigestOf(op: Op): Text
    requires op.Request? || op.Wake1? || op.Wake2?
  {
    if op.Request? then op.digest else op.request.digest
  }

  /** The answers that tell the client to come back later, and that its content differs. */
  predicate IsBusy(answer: Answer) { answer in {Answered(Busy), Woken(WakeBusy)} }

  predicate IsConflict(answer: Answer) { answer in {Answered(Conflict), Woken(WakeConflict)} }

  lemma PendingAnswer(s: State, step: Step)
    requires step.op.Request? || step.op.Wake1? || step.op.Wake2?
    requires step.op.key in s.entries && s.entries[step.op.key].pending && step.now < s.entries[step.op.key].expires
    ensures if DigestOf(step.op) == s.entries[step.op.key].digest then IsBusy(AnswerTo(s, step))
            else IsConflict(AnswerTo(s, step))
  {
  }

  /**
   * While an operation is pending nothing with its id starts work, whichever kind of request it is and whatever
   * happens to other operations: a repetition is told to wait, and other content is a conflict.
   */
  lemma PendingOperationIsExclusive(run: seq<Event>, i: nat, j: nat, key: OperationKey)
    requires Valid(run) && i < j < |run|
    requires key in run[i].after.entries && run[i].after.entries[key].pending
    requires forall m: nat :: i < m < j ==> !Settles(run, m, key)
    requires run[j].step.op.key == key && (run[j].step.op.Request? || run[j].step.op.Wake1? || run[j].step.op.Wake2?)
    requires run[j].step.now < run[i].after.entries[key].expires
    ensures if DigestOf(run[j].step.op) == run[i].after.entries[key].digest then IsBusy(run[j].answer)
            else IsConflict(run[j].answer)
  {
    hide Apply, AnswerTo;
    assert Linked(run, j) && run[j - 1].step.now <= run[j].step.now;
    FixedAlong(run, i, j - 1, key);
    PendingAnswer(run[j].before, run[j].step);
  }

  lemma StoredAnswer(s: State, step: Step)
    requires step.op.Request? && step.op.key in s.entries && step.now < s.entries[step.op.key].expires
    requires !s.entries[step.op.key].pending && s.entries[step.op.key].response.Some?
    ensures AnswerTo(s, step) == Answered(if step.op.digest == s.entries[step.op.key].digest
                                          then Cached(s.entries[step.op.key].response.value) else Conflict)
  {
  }

  lemma CompletionStores(s: State, step: Step)
    requires step.op.Complete? && step.op.key in s.entries
    ensures step.op.key in Apply(s, step).entries
    ensures var e, f := s.entries[step.op.key], Apply(s, step).entries[step.op.key];
            && f.digest == e.digest && !f.pending && f.response == Some(step.op.response)
            && f.expires == step.now + LEDGER_TTL && (e.wake.None? ==> f.wake.None?)
  {
  }

  /** A list or status request that was answered is answered alike for LEDGER_TTL, and never worked on again. */
  lemma AnswerIsRepeated(run: seq<Event>, i: nat, j: nat, key: OperationKey)
    requires Valid(run) && i < j < |run|
    requires run[i].step.op.Complete? && run[i].step.op.key == key
    requires key in run[i].before.entries && run[i].before.entries[key].wake.None?
    requires forall m: nat :: i < m < j ==> !Settles(run, m, key)
    requires run[j].step.op.Request? && run[j].step.op.key == key && run[j].step.now < run[i].step.now + LEDGER_TTL
    ensures run[j].answer == Answered(if run[j].step.op.digest == run[i].before.entries[key].digest
                                      then Cached(run[i].step.op.response) else Conflict)
  {
    hide Apply, AnswerTo;
    assert Linked(run, i) && Linked(run, j) && run[j - 1].step.now <= run[j].step.now;
    CompletionStores(run[i].before, run[i].step);
    FixedAlong(run, i, j - 1, key);
    StoredAnswer(run[j].before, run[j].step);
  }

  /** The key's wake entry, if there is one, is at attempt 2. */
  predicate AtSecond(s: State, key: OperationKey) {
    key in s.entries ==> s.entries[key].wake.Some? && s.entries[key].wake.value.attempt == 2
  }

  lemma AtSecondStep(s: State, step: Step, key: OperationKey)
    requires AtSecond(s, key)
    requires step.op.key == key ==>
              !(AnswerTo(s, step) == Answered(New)) && !(step.op.Wake1? && Grants(AnswerTo(s, step)))
    ensures AtSecond(Apply(s, step), key)
  {
  }

  lemma SecondGrantIsSecond(s: State, step: Step)
    requires step.op.Wake2? && Grants(AnswerTo(s, step))
    ensures AtSecond(Apply(s, step), step.op.key)
  {
  }

  lemma {:induction false} AtSecondAlong(run: seq<Event>, i: nat, j: nat, key: OperationKey)
    requires Valid(run) && i <= j < |run| && Granted2(run, i, key)
    requires forall m: nat :: i < m <= j && run[m].step.op.key == key ==>
              run[m].answer != Answered(New) && !Granted1(run, m, key)
    ensures AtSecond(run[j].after, key)
  {
    hide Apply, AnswerTo, AtSecond;
    assert Linked(run, j);
    if i == j {
      SecondGrantIsSecond(run[i].before, run[i].step);
    } else {
      AtSecondAlong(run, i, j - 1, key);
      AtSecondStep(run[j].before, run[j].step, key);
    }
  }

  lemma FirstAnswerAtSecond(s: State, step: Step)
    requires AtSecond(s, step.op.key) && step.op.Wake1?
    ensures !IsCached(AnswerTo(s, step))
    ensures Grants(AnswerTo(s, step)) ==> step.op.key !in s.entries || s.entries[step.op.key].expires <= step.now
  {
  }

  /**
   * The second attempt ends the first: a late copy of attempt 1 is no longer answered from the cache, and is
   * granted only once the entry of the second has lapsed, at least PENDING_LEDGER_TTL later.
   */
  lemma SecondAttemptEndsTheFirst(run: seq<Event>, i: nat, j: nat, key: OperationKey)
    requires Valid(run) && i < j < |run| && Granted2(run, i, key)
    requires forall m: nat :: i < m < j && run[m].step.op.key == key ==>
              run[m].answer != Answered(New) && !Granted1(run, m, key)
    requires run[j].step.op.Wake1? && run[j].step.op.key == key
    ensures !IsCached(run[j].answer)
    ensures run[j].step.now < run[i].step.now + PENDING_LEDGER_TTL ==> !Grants(run[j].answer)
  {
    hide Apply, AnswerTo, AtSecond;
    assert Linked(run, j);
    AtSecondAlong(run, i, j - 1, key);
    FirstAnswerAtSecond(run[j].before, run[j].step);
    if Grants(run[j].answer) {
      ReservationsAreSeparated(run, i, j, key);
    }
  }
}
